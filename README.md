# Trading bot core in Dafny

This project models the decision logic and bookkeeping of a futures-trading bot
for the MEXC exchange. The bot trades through a browser. Everything that drives
the browser, polls prices over HTTP or reads the page appears here as inputs:

- the order gateway answers each request with success or failure, from a fixed
  script of answers;
- the futures page shows, at each reading, the two "closable amount" texts,
  from a fixed script of readings;
- the wall clock is a number of seconds;
- the random draws (rest length, resume minute and second) are parameters
  limited to the ranges the code draws from.

The modules follow the repository's files:

- `Market` (market.dfy) holds the shared vocabulary. It has sides, position
  entries, order requests, trade events and the configuration constants. It
  also holds the clock and Python's half-to-even `round`. Finally it holds the
  base-unit sizing both engines use: 20% of the seed over the price, floored
  to the symbol's minimum step.
- `ExchangeView` (exchange.dfy) is the scripted gateway and page. It keeps a
  log of every request sent.
- `AmountParsing` (amount_parsing.dfy) covers `_parse_amount`, the shaping of
  the position list in `get_open_positions`, and the close requests of
  `close_all_positions`.
- `PositionTracking` (position_tracker.dfy) is the ledger. It holds the traded
  notional, the realized PnL and the initial balance, and it does the
  close-everything loop.
- `Risk` (risk_manager.dfy) is the pacing controller. It has the lazy pause
  expiry and the 10 to 15 minute rest. It has the rest until a random time
  between 15:00 and 16:00. It also applies the `record_trade` rules in their
  order: release after a hedge, the flat round-trip count, the hedge flag, the
  90-minute rest and the daily-volume rest.
- `DomEngine` (dom_strategy.dfy) is the DOM-fed engine, `strategy.py`. It has
  non-strict crossovers and same-price repeat guards. Its 2-lot trims must
  alternate between the sides. It uses three-attempt retry loops for full
  opens and closes, and reads the sizes back from the page after every order.
- `PriceEngine` (price_strategy.dfy) is the price-fed engine, `strategyupdate.py`.
  It computes EMA(1), EMA(3) and EMA(7) itself and has strict crossovers. It
  keeps its sizes from the amounts it ordered. While hedged it closes at most
  2 lots at a time.
- `Launcher` (launcher.dfy) is the price-fed bot's `main.py`. It covers the
  UID-to-symbol lookup, the seed prompt's acceptance rule, the price callback
  and the 15:00 ledger reset.
- `SignalRule` (signal_rule.dfy) and `AutoTrading` (auto_trader.dfy) are the
  small TradingView-fed bot: the RSI/MACD rule and the one-position follower.

Each engine's decision table is a pure function, `Decide`, with lemmas that
state each branch as an if-and-only-if. Each order helper has a predicate
(`OpenFiftyDone`, `CloseTwoDone` and so on). The predicate is over a `Book`,
a snapshot of the state before the call: sizes, entry prices, ledger, trade
history, request log and reading count. In the price-fed engine it relates
that book to a second `Book`, the state after the call, so the launcher can
state the tick's effect before the volume goal is checked. The predicate
states the helper's whole effect:
- the guard under which nothing changes;
- the orders sent and the readings taken;
- what is booked when the order goes through;
- that a refused order changes only the request log (and, in the DOM-fed
  engine, the reading count and the sizes read back).

Each helper method ensures its predicate. The dispatch (`RunHelper`,
`RunAction`) ensures the predicate of the helper it is given. `CheckStrategy`
and `OnNewPrice` return the helper `Decide` names and ensure that this helper
ran, with its whole effect, from the state before the call. In the DOM-fed
engine that state is taken after the block the table lifts. The risk
controller shows in these predicates only through the events it records and
the closes it may send.

## Model

| member | source | states |
|---|---|---|
| Market.ClosePnlSign | mexc-autotrade-main/core/position_tracker.py:159-166 | Closing a positive quantity makes a profit exactly when the price moved the side's way (up for a long, down for a short), and zero exactly at the entry price |
| Market.MinTradeAmount | mexc-autotrade-main/config/config.py:22-27 | The minimum step is positive, and 0.0001 for every symbol outside the table |
| Market.Alpha | mexc-autotrade-main/strategyupdate.py:29-31 | The EMA weight 2/(N+1) lies in (0, 1], and is 1 for period 1 |
| Market.DayStart | mexc-autotrade-main/main.py:140-144 | The start of the day of a time is at most one day before it and on the same date |
| Market.Hour | mexc-autotrade-main/core/risk_manager.py:251-253 | The hour lies in 0..23, and the time lies inside that hour of its day |
| Market.RoundHalfEven | strategy.py:571-572 | The integer is within one half of x, and is even when x lies exactly halfway |
| Market.RoundHalfEvenUnique | strategy.py:571-572 | Those two properties determine the rounded integer uniquely |
| Market.RoundHalfEvenNonNegative | strategy.py:571-572 | Rounding a non-negative amount never gives a negative size |
| Market.FlooredBaseUnitIsLargestMultiple | strategy.py:80-83 | The floored base unit is a whole multiple of the symbol's step, at most seed*0.2/price, and less than one step below it; it is positive exactly when seed*0.2/price reaches one step |
| Market.NextBaseUnit | strategy.py:77-89 | The base unit is unchanged when the seed is not positive or the price is missing or not positive. Otherwise, when seed*0.2/price reaches one step, the base unit becomes the positive whole multiple of the step lying at most one step below it, never above it; below one step it is unchanged |
| Market.NextBaseUnitStaysPositive | strategy.py:86-89 | A positive base unit stays positive through every recomputation |
| Market.BaseUnitExample | strategy.py:80-89 | Seed 1000 at price 100 on ETH_USDT gives a base unit of 2 |
| Market.SideTotalNonNegative | strategy.py:558-565 | Summing a side over a list of positive entries gives a non-negative total, and 0 exactly when the side is not listed |
| Market.LastSizeNonNegative | mexc-autotrade-main/core/risk_manager.py:167-175 | Taking the last entry of a side gives a non-negative size, and 0 exactly when the side is not listed |
| Market.EmptyIffNoAmounts | mexc-autotrade-main/core/risk_manager.py:283-296 | On positive entries, an empty list, zero last sizes, and no positive sum on either side all mean the same thing |
| Market.SideTotals | strategy.py:558-565 | The accumulation loop computes the per-side sums of the list |
| Market.LastSizes | mexc-autotrade-main/core/risk_manager.py:167-175 | The overwriting loop computes the last size listed for each side |
| ExchangeView.Repeat | strategy.py:267-271 | n copies of a request, each equal to it |
| ExchangeView.Exchange.constructor | mexc-autotrade-main/core/order_executor.py:17-65 | A fresh gateway and page have sent nothing and read nothing, and every scripted reading's list is its parse |
| ExchangeView.Exchange.PositionsAt | mexc-autotrade-main/core/position_tracker.py:88-100 | Every list the page shows holds only positive entries |
| ExchangeView.Exchange.Send | mexc-autotrade-main/core/order_executor.py:67-173 | A request is appended to the log, and its answer is the next scripted answer (false once the script runs out) |
| ExchangeView.Exchange.Read | mexc-autotrade-main/core/position_tracker.py:28-117 | A reading shows the next scripted row (unreadable once the script runs out) and advances the count |
| ExchangeView.ShownIsParsed | mexc-autotrade-main/core/position_tracker.py:85-117 | The list of any reading, scripted or not, is what the tracker's parser makes of it |
| AmountParsing.KeepNumeric | mexc-autotrade-main/core/position_tracker.py:128 | The filter keeps only digits and dots, never lengthens the text, and leaves a text of digits and dots as it is |
| AmountParsing.KeepNumericAppend | mexc-autotrade-main/core/position_tracker.py:128 | The filter of a concatenation is the concatenation of the filters |
| AmountParsing.KeepNumericOfNone | mexc-autotrade-main/core/position_tracker.py:128 | A text without digits or dots filters to nothing |
| AmountParsing.KeepNumericRemoveAll | mexc-autotrade-main/core/position_tracker.py:124-126 | Removing a pattern without digits or dots leaves the filtered text unchanged |
| AmountParsing.KeepNumericTrimLeft | mexc-autotrade-main/core/position_tracker.py:126 | Stripping leading whitespace leaves the filtered text unchanged |
| AmountParsing.KeepNumericTrimRight | mexc-autotrade-main/core/position_tracker.py:126 | Stripping trailing whitespace leaves the filtered text unchanged |
| AmountParsing.KeepNumericRemoveEach | mexc-autotrade-main/core/position_tracker.py:124-126 | A chain of such removals leaves the filtered text unchanged |
| AmountParsing.CleanedIsKeepNumeric | mexc-autotrade-main/core/position_tracker.py:124-128 | The replacements and the strip are subsumed by the filter: what reaches `float()` is exactly the digits and dots of the raw text |
| AmountParsing.DotIndex | mexc-autotrade-main/core/position_tracker.py:131 | The first dot's position; no dot before it, and one dot fewer after it |
| AmountParsing.NoDotsAllDigits | mexc-autotrade-main/core/position_tracker.py:131 | A filtered text without a dot is all digits |
| AmountParsing.CountDotsAppend | mexc-autotrade-main/core/position_tracker.py:131 | The dots of a concatenation are the dots of its parts |
| AmountParsing.AllDigitsNoDots | mexc-autotrade-main/core/position_tracker.py:131 | A text of digits has no dot |
| AmountParsing.OneDotCount | mexc-autotrade-main/core/position_tracker.py:131 | Digits, one dot, digits: a digits-and-dots text with exactly one dot |
| AmountParsing.OneDotAt | mexc-autotrade-main/core/position_tracker.py:131 | In digits, dot, digits, the first dot sits right after the whole part |
| AmountParsing.ParseFloatOneDot | mexc-autotrade-main/core/position_tracker.py:131 | A whole part and a fractional part around one dot, not both empty, parse to whole + fraction/10^(fraction digits) |
| AmountParsing.ParseFloat | mexc-autotrade-main/core/position_tracker.py:131 | `float()` of a digits-and-dots text is never negative and fails on two or more dots; a dotless text parses exactly when it is not empty, and then to the integer its digits spell |
| AmountParsing.ParseFloatExample | mexc-autotrade-main/core/position_tracker.py:122 | "0.50" parses to 0.5 |
| AmountParsing.KeepNumericBetween | mexc-autotrade-main/core/position_tracker.py:128 | Digits and dots wrapped in text without any filter to exactly themselves |
| AmountParsing.KeepNumericExample | mexc-autotrade-main/core/position_tracker.py:122 | The filter turns a left-to-right mark, "0.50 ETH" into "0.50" |
| AmountParsing.ParseAmount | mexc-autotrade-main/core/position_tracker.py:119-131 | A parsed amount is never negative; text without digits or dots reads as 0; otherwise the amount is exactly `float()` of the digits and dots, so two or more dots is an error |
| AmountParsing.ParseAmountExample | mexc-autotrade-main/core/position_tracker.py:122 | The docstring's example: a left-to-right mark, then "0.50 ETH", reads as 0.5 |
| AmountParsing.ParseAmountTwoDots | mexc-autotrade-main/core/position_tracker.py:128-131 | "1.2.3" is an error |
| AmountParsing.Shape | mexc-autotrade-main/core/position_tracker.py:85-100 | The list holds only positive entries, at most two, a SHORT before a LONG, and is empty when either amount failed to parse |
| AmountParsing.Shown | mexc-autotrade-main/core/position_tracker.py:85-86 | The amount shown for a side is non-negative when both parsed amounts are |
| AmountParsing.OpenPositions | mexc-autotrade-main/core/position_tracker.py:85-117 | Positive entries only, at most two, SHORT before LONG; empty for an unreadable row or a failed parse |
| AmountParsing.ShownAmount | mexc-autotrade-main/core/position_tracker.py:85-86 | The amount a reading shows for a side is never negative |
| AmountParsing.ShapeTotals | mexc-autotrade-main/core/position_tracker.py:88-100 | The sum and the last entry of a side in the shaped list both equal the amount shown for it |
| AmountParsing.TotalsOfSingle | mexc-autotrade-main/core/position_tracker.py:88-94 | On a one-entry list, sum and last size agree |
| AmountParsing.TotalsOfPair | mexc-autotrade-main/core/position_tracker.py:88-100 | On a SHORT-then-LONG list, sum and last size agree per side |
| AmountParsing.OpenPositionsTotals | mexc-autotrade-main/core/position_tracker.py:85-117 | The strategy's summing readback and the controller's last-entry readback agree and give the shown amount; the list is empty exactly when both amounts are 0 |
| AmountParsing.CloseRequestsCoverList | mexc-autotrade-main/core/position_tracker.py:147-156 | On positive entries, one close request per entry, in order, for that entry's side and size |
| AmountParsing.CloseRequestsAreCloses | mexc-autotrade-main/core/position_tracker.py:147-156 | The close-all loop only ever sends closes |
| PositionTracking.PositionTracker.constructor | mexc-autotrade-main/core/position_tracker.py:14-20 | All accumulators start at 0 and no executor is attached |
| PositionTracking.PositionTracker.AttachExecutor | mexc-autotrade-main/main.py:108 | An executor is attached |
| PositionTracking.PositionTracker.AddTradeVolume | mexc-autotrade-main/core/position_tracker.py:22-26 | The notional accumulator grows by exactly the argument, and nothing else changes |
| PositionTracking.PositionTracker.AddRealizedPnl | mexc-autotrade-main/core/position_tracker.py:159-166 | The PnL accumulator grows by exactly the argument, and nothing else changes |
| PositionTracking.PositionTracker.AccumulatedVolume | mexc-autotrade-main/core/position_tracker.py:133-137 | The getter returns the traded-notional accumulator |
| PositionTracking.PositionTracker.RealizedPnl | mexc-autotrade-main/core/position_tracker.py:168-172 | The getter returns the realized-PnL accumulator |
| PositionTracking.PositionTracker.GetOpenPositions | mexc-autotrade-main/core/position_tracker.py:28-117 | One reading is taken, and the list is that reading's parse |
| PositionTracking.PositionTracker.CloseAllPositions | mexc-autotrade-main/core/position_tracker.py:139-156 | Without an executor nothing is read or sent; otherwise one reading, then exactly the close requests of its list, in order |
| PositionTracking.PositionTracker.SetInitialBalance | mexc-autotrade-main/core/position_tracker.py:252-254 | The initial balance becomes the total balance read |
| PositionTracking.PositionTracker.CurrentProfit | mexc-autotrade-main/core/position_tracker.py:259-260 | Initial balance plus profit is the total balance |
| PositionTracking.PositionTracker.RealizedPnlByBalance | mexc-autotrade-main/core/position_tracker.py:265-278 | Realized plus unrealized PnL is the current profit |
| Risk.BaseTargetBySeed | mexc-autotrade-main/core/risk_manager.py:45-46 | The base volume target is a thousand times the seed, and is at least the seed for a non-negative seed |
| Risk.LeftoverReads | mexc-autotrade-main/core/risk_manager.py:309-315 | A leftover check takes one reading, plus the close-all's own reading exactly when that first reading shows a position and an executor is attached |
| Risk.LeftoverCloses | mexc-autotrade-main/core/risk_manager.py:309-315 | A leftover check sends only closes, and sends something only when it closes out |
| Risk.OnlyClosesAddedTrans | mexc-autotrade-main/core/risk_manager.py:187-202 | Two steps that each only add closes to the log together only add closes |
| Risk.OffsetInDay | mexc-autotrade-main/core/risk_manager.py:320-323 | An offset of less than a day from midnight stays on that date, at the offset's hour |
| Risk.ResumeTime | mexc-autotrade-main/core/risk_manager.py:317-328 | The resume time is today's 15:mm:ss or 16:mm:ss, never in the past, and there is none exactly when 16:mm:ss is already past |
| Risk.ResumeBeforeFifteen | mexc-autotrade-main/core/risk_manager.py:251-262 | Before 15:00 the resume time is today's 15:mm:ss, so the clamp at hour 16 never applies |
| Risk.RiskManager.constructor | mexc-autotrade-main/core/risk_manager.py:20-40 | No pause pending, last rest now, empty history, flags clear, count 0, and the daily target is seed*1000*1.2 |
| Risk.RiskManager.UpdateTradingVolume | mexc-autotrade-main/core/risk_manager.py:126-131 | The ledger's notional grows by the amount |
| Risk.RiskManager.GetStablePositions | mexc-autotrade-main/core/risk_manager.py:136-146 | `tries` readings are taken and the last one's list is returned; no reading gives the empty list |
| Risk.RiskManager.ForceCloseLeftovers | mexc-autotrade-main/core/risk_manager.py:148-158 | Exactly the tracker's close-all, and only closes are sent |
| Risk.RiskManager.CloseLeftovers | mexc-autotrade-main/core/risk_manager.py:280-296 | One reading; a close-all only when it shows an amount on some side and an executor is attached |
| Risk.RiskManager.IsPaused | mexc-autotrade-main/core/risk_manager.py:267-274 | Paused exactly when a pause is pending and not yet over; an expired pause is cleared |
| Risk.RiskManager.RandomSleep | mexc-autotrade-main/core/risk_manager.py:276-303 | After the leftover check, the pause ends 600 to 900 seconds (the drawn rest) from now and the last rest is now |
| Risk.RiskManager.PauseUntilRandom15to16 | mexc-autotrade-main/core/risk_manager.py:305-335 | The leftover check runs first, with its exact reads and closes. The pause then ends at the resume time when there is one. Otherwise the plain drawn rest starts and runs a second leftover check. Either way the last rest is now |
| Risk.RiskManager.CheckVolumeGoalAndSleep | mexc-autotrade-main/core/risk_manager.py:244-262 | Rests until today's 15:mm:ss exactly when it is before 15:00, the volume reached the target and the page shows no position; otherwise the pause is untouched. When it rests, the only requests are those of the rest's leftover check on the next reading. Otherwise nothing is sent, and exactly one reading is taken when it looked at the page |
| Risk.RiskManager.ReleaseAfterHedge | mexc-autotrade-main/core/risk_manager.py:185-212 | After the force close, a flat recheck starts a drawn rest and clears the three hedge flags; a non-flat recheck changes none of them |
| Risk.RiskManager.HedgeStep | mexc-autotrade-main/core/risk_manager.py:178-212 | Marks the side closed after a hedge; releases exactly when a hedge is on, both sides were closed and the page was flat; otherwise only the marks change |
| Risk.RiskManager.ApplyPacingRules | mexc-autotrade-main/core/risk_manager.py:214-242 | The count grows only on a flat 50-lot close; a hedge open sets the hedge flag; a flat page after 90 minutes starts a drawn rest; otherwise the daily-volume rule decides |
| Risk.RiskManager.RecordTrade | mexc-autotrade-main/core/risk_manager.py:162-242 | The event is appended to the history; then either the post-hedge release or the count, flag, 90-minute and volume rules, with the pause and every flag stated on each path; only closes are sent |
| Risk.RiskManager.Notify | mexc-autotrade-main/core/risk_manager.py:162-163 | What the engines rely on: the event is appended to the history and only closes are sent |
| DomEngine.CrossoversTie | strategy.py:129-149 | Both crossovers fire on one tick exactly when EMA1 equalled EMA2 before and equals it again now; neither fires without all four values |
| DomEngine.DecideFlat | strategy.py:176-196 | Flat: a long opens exactly on a golden cross with EMA2 above EMA3 at a price other than the last golden price, a short likewise on a dead cross; the cross price is recorded exactly when that open is called |
| DomEngine.DecideRepeatGuard | strategy.py:178-183 | A golden cross at the recorded golden price orders nothing and records nothing, so the skip repeats while the price stays |
| DomEngine.DecideLongFifty | strategy.py:199-215 | Exactly 50 long: a dead cross closes the long at +0.05% or more and hedges with a short below that; no dead cross, no action |
| DomEngine.DecideShortFifty | strategy.py:218-234 | Exactly 50 short: the mirror image on a golden cross |
| DomEngine.DecideOther | strategy.py:237-258 | Every other state: a golden cross trims the short and a dead cross trims the long, unless the price repeats the last cross of its kind |
| DomEngine.DecideUnblock | strategy.py:245-258 | A side's 2-lot block is lifted exactly by a tick that trims the other side |
| DomEngine.SyncedSizeNearest | strategy.py:566-573 | The synced size is the number of base units nearest to the amount read: off by at most half a base unit |
| DomEngine.ReadbackTable | strategy.py:549-576 | The readback table holds, for every scripted reading, the sizes it syncs to |
| DomEngine.ReadbackIsSynced | strategy.py:549-576 | Every reading, scripted or past the script, syncs to its table entry |
| DomEngine.FirstFill | strategy.py:268-300 | The first attempt among three whose order is accepted and whose readback shows the fill; no earlier attempt succeeded, and none means all three failed |
| DomEngine.SendsUntilAccepted | strategy.py:445-453 | The 2-lot close sends one to three requests: every one before the last is refused, and the last is accepted unless all three were sent (the short side mirrors it at strategy.py:505-513) |
| DomEngine.DomStrategy.constructor | strategy.py:15-60 | Flat, no entries, no executor, seed 0, base unit 1, no marks, blocks or cross prices |
| DomEngine.DomStrategy.SetOrderExecutor | strategy.py:62-63 | An executor is attached |
| DomEngine.DomStrategy.SetUserSeed | strategy.py:65-66 | The seed is set |
| DomEngine.DomStrategy.UpdateBaseUnit | strategy.py:71-89 | The base unit is recomputed from the seed and EMA1 by the rule of `Market.NextBaseUnit`: the largest multiple of the step not above seed*0.2/EMA1 when that reaches one step, the old unit otherwise |
| DomEngine.DomStrategy.SyncWithDom | strategy.py:549-576 | One reading; the sizes become that reading's amounts in base units, rounded half to even |
| DomEngine.DomStrategy.FullOrderAttempts | strategy.py:268-300 | Reports a fill exactly when one of at most three attempts is accepted and read back filled. The log gains one 50-unit order per attempt made, up to the first fill. One reading is taken per attempt, the sizes are the last reading's, and nothing else changes |
| DomEngine.DomStrategy.BookOpen | strategy.py:277-296 | The notional at EMA1 is booked and the entry becomes EMA1. The open goes to the controller, as a hedge when the other side is held, and the last action is this open. Sizes, blocks, profit and the other entry stay, and only closes are added to the log |
| DomEngine.DomStrategy.OpenFiftyOrders | strategy.py:263-303 | Without an executor nothing changes. Otherwise the retry loop runs, and only a filled attempt books the open of 50 base units on top of it. After three unfilled attempts only the log, the reading count and the sizes read back change |
| DomEngine.DomStrategy.BookCloseFifty | strategy.py:356-375 | The notional and the side's PnL at EMA1 against the old entry are booked, the 50-close event goes to the controller, and the entry is reset. Sizes, mark, blocks and the other entry stay |
| DomEngine.DomStrategy.CloseFiftyOrders | strategy.py:340-378 | Below 50 or without an executor nothing changes. Otherwise the retry loop runs, and the close of 50 base units is booked on top of it only when an attempt reads the side back empty |
| DomEngine.DomStrategy.SendCloseTwo | strategy.py:445-453 | Close requests of 2 base units until one is accepted, at most three (the short side mirrors it at strategy.py:505-513) |
| DomEngine.DomStrategy.BookCloseTwo | strategy.py:463-486 | Volume and PnL at EMA1 on the units actually closed. A side read back empty resets its entry and reports all-closed; otherwise it reports partial-closed. This side is blocked and marked, and the other side's entry and block stay (the short side mirrors it at strategy.py:521-543) |
| DomEngine.DomStrategy.TrimTwo | strategy.py:442-486 | Once the guard has passed: the sends until one is accepted, then one readback. The units the readback shows gone are booked as a trim. When none are gone, nothing changes but the log, the reading count and the sizes (the short side mirrors it at strategy.py:502-543) |
| DomEngine.DomStrategy.CloseTwoOrders | strategy.py:420-505 | A blocked side, a repeated trim, fewer than 2 units or no executor change nothing; otherwise the whole effect of the trim as above |
| DomEngine.DomStrategy.RunHelper | strategy.py:198-258 | The helper it is given has run with its whole effect (`HelperDone`); `NoAction` changes nothing |
| DomEngine.DomStrategy.CheckStrategy | strategy.py:154-258 | Returns the helper the decision table names. That helper has run with its whole effect, from the state before the call with the block the table lifts already lifted. Cross prices are recorded as the table says |
| DomEngine.DomStrategy.PrepareTick | strategy.py:95-124 | The EMAs always shift in; the tick proceeds exactly when all three are present and no pause is on; only then does a flat engine recompute its base unit |
| DomEngine.DomStrategy.OnNewPrice | strategy.py:95-127 | As above. On a live tick, the helper the decision table names for the sizes and crosses before the tick has run with its whole effect. A skipped tick calls nothing and changes no size, entry, mark, block, ledger or request |
| PriceEngine.EmaStep | mexc-autotrade-main/strategyupdate.py:138-140 | One more price moves each EMA by the weighted step |
| PriceEngine.LowHighBound | mexc-autotrade-main/strategyupdate.py:138-140 | Low and High are prices of the series, below and above every price in it |
| PriceEngine.ConvexBetween | mexc-autotrade-main/strategyupdate.py:138-140 | A weighted step between two values in a range stays in the range |
| PriceEngine.EmaWithinPrices | mexc-autotrade-main/strategyupdate.py:138-140 | Every EMA lies between the lowest and highest price fed so far |
| PriceEngine.EmaShortIsLatest | mexc-autotrade-main/strategyupdate.py:138-140 | With the period-1 weight, EMA(1) is always the latest price |
| PriceEngine.StepEmaFollows | mexc-autotrade-main/strategyupdate.py:138-140 | An average that is the EMA of the prices fed so far (none before the first) becomes, after one update, the EMA of the series with the new price, within that series' range |
| PriceEngine.PriceInRange | mexc-autotrade-main/strategyupdate.py:155-160 | True exactly when the two prices are less than the threshold apart |
| PriceEngine.CrossoversExclusive | mexc-autotrade-main/strategyupdate.py:164-178 | The strict crossovers never fire together, and neither fires on the first tick |
| PriceEngine.DecideFlat | mexc-autotrade-main/strategyupdate.py:205-213 | Flat: a long opens exactly on a golden cross with EMA2 above EMA3, a short exactly on a dead cross with EMA2 below EMA3 |
| PriceEngine.DecideLongFifty | mexc-autotrade-main/strategyupdate.py:216-232 | Exactly 50 long: a dead cross closes at +0.05% or more and hedges below it; no dead cross, no action |
| PriceEngine.DecideShortFifty | mexc-autotrade-main/strategyupdate.py:235-251 | Exactly 50 short: the mirror image on a golden cross |
| PriceEngine.DecideHedged | mexc-autotrade-main/strategyupdate.py:254-275 | Any other held state: golden closes all the short below 2 lots, else 2; otherwise dead does the same on the long |
| PriceEngine.LotsClosed | mexc-autotrade-main/strategyupdate.py:409-412 | A close never takes more than the side holds |
| PriceEngine.HedgedClosesAtMostTwo | mexc-autotrade-main/strategyupdate.py:258-275 | The hedge branch takes min(2, held) lots off the side |
| PriceEngine.PriceStrategy.constructor | mexc-autotrade-main/strategyupdate.py:16-57 | No prices fed, flat, no entries, no executor, seed 0, base unit 1 |
| PriceEngine.PriceStrategy.SetOrderExecutor | mexc-autotrade-main/strategyupdate.py:59-60 | An executor is attached |
| PriceEngine.PriceStrategy.SetUserSeed | mexc-autotrade-main/strategyupdate.py:62-63 | The seed is set |
| PriceEngine.PriceStrategy.UpdateEma | mexc-autotrade-main/strategyupdate.py:127-152 | The EMAs shift to the previous slots and stay the EMAs of all prices fed, within their range; EMA1 is the price; the previous price follows only a move of 0.0001 or more |
| PriceEngine.PriceStrategy.UpdateBaseUnit | mexc-autotrade-main/strategyupdate.py:68-87 | The base unit is recomputed from the seed and the price by the rule of `Market.NextBaseUnit`: the largest multiple of the step not above seed*0.2/price when that reaches one step, the old unit otherwise |
| PriceEngine.PriceStrategy.BookOpen | mexc-autotrade-main/strategyupdate.py:287-297 | The notional at the price is booked, the entry becomes the price, and the open or hedge event goes to the controller |
| PriceEngine.PriceStrategy.Settle | mexc-autotrade-main/strategyupdate.py:333-337 | The side is emptied, its entry reset, the other side untouched, and the event goes to the controller |
| PriceEngine.PriceStrategy.OpenFiftyOrder | mexc-autotrade-main/strategyupdate.py:280-315 | Without an executor nothing changes. One 50-unit open is sent. If accepted, the side holds exactly 50 and the other side is untouched; the entry becomes the price, price*base*50 is booked and the open or hedge goes to the controller. If refused, only that request is logged |
| PriceEngine.PriceStrategy.BookClose | mexc-autotrade-main/strategyupdate.py:328-331 | The notional and the side's PnL at the price are booked |
| PriceEngine.PriceStrategy.CloseWhole | mexc-autotrade-main/strategyupdate.py:322-337 | One close of `qty` is sent. If accepted, the side is emptied and its entry reset, the other side is untouched, notional and PnL against the old entry are booked, and the event is recorded. If refused, only that request is logged |
| PriceEngine.PriceStrategy.CloseAllOrder | mexc-autotrade-main/strategyupdate.py:320-356 | Nothing changes unless the side is held and an executor is attached; then exactly `CloseWhole` of the whole side in base units, reported all-closed |
| PriceEngine.PriceStrategy.CloseFiftyOrder | mexc-autotrade-main/strategyupdate.py:358-394 | Nothing changes unless the side holds exactly 50 and an executor is attached; then exactly `CloseWhole` of 50 base units, reported as a 50-close |
| PriceEngine.PriceStrategy.Reduce | mexc-autotrade-main/strategyupdate.py:403-414 | The amount comes off the side; a result at or below 0 is clamped to 0, resets the entry and is the only case reported |
| PriceEngine.PriceStrategy.CloseSomeOrder | mexc-autotrade-main/strategyupdate.py:396-434 | Nothing changes unless the side is held and an executor is attached. If accepted, the amount comes off the side at the price, with notional and PnL booked; a side left at or below 0 is emptied, loses its entry and is reported. If refused, only that request is logged |
| PriceEngine.PriceStrategy.RunAction | mexc-autotrade-main/strategyupdate.py:205-275 | The helper the action names has run with its whole effect (`ActionDone`), and `Idle` changes nothing. Sizes stay non-negative, the other side is untouched, and each side ends at its old size or at the helper's target |
| PriceEngine.PriceStrategy.CheckStrategy | mexc-autotrade-main/strategyupdate.py:183-275 | Returns the action the decision table names, and that helper has run with its whole effect from the state before the call. A partial close takes 2 lots from a side holding at least 2 |
| PriceEngine.PriceStrategy.PrepareTick | mexc-autotrade-main/strategyupdate.py:92-111 | The price and the EMAs always take the tick in; it proceeds exactly when no pause is on, and then a flat engine recomputes its base unit |
| PriceEngine.PriceStrategy.OnNewPrice | mexc-autotrade-main/strategyupdate.py:92-114 | As above. A paused tick changes nothing else. Otherwise a flat engine recomputes its base unit, and the action the decision table names for the sizes before the tick has run with its whole effect, whatever the small-move check said |
| Launcher.SymbolByUid | mexc-autotrade-main/main.py:17-21 | The symbol of the first entry, in table order, that lists the UID; the default symbol when none does |
| Launcher.PromptUserSeed | mexc-autotrade-main/main.py:53-64 | A returned seed is positive and is the first acceptable line, every earlier line rejected; no seed means every line was rejected |
| Launcher.OnDataReceived | mexc-autotrade-main/main.py:23-51 | No last price: nothing at all changes. Otherwise the strategy takes the price in, and out of a pause the action the decision table names has run with its whole effect (`ActionDone`); then the volume goal starts a rest until 15:mm:ss exactly when it is before 15:00, the target is reached and the page reads flat, and otherwise leaves the pause as the tick left it; after the tick only the log, the reading count and the pause move, and the log gains exactly the rest's leftover closes |
| Launcher.MainLoop.constructor | mexc-autotrade-main/main.py:127 | No reset has happened yet |
| Launcher.MainLoop.ResetIfDue | mexc-autotrade-main/main.py:139-145 | At 15:00 on a date not yet reset, volume and PnL go to 0 and the date is remembered; otherwise nothing changes; resets stay at most one per date |
| SignalRule.GetOr | TradingStrategy.py:10-12 | A present value, else the default |
| SignalRule.CheckSignal | TradingStrategy.py:5-20 | LONG exactly when both blocks are present, RSI below 30 and MACD above its signal; SHORT exactly when RSI above 70 and MACD below it; nothing when a block is missing |
| SignalRule.DefaultsGiveNoSignal | TradingStrategy.py:10-12 | With every value missing, the defaults give no signal |
| SignalRule.NeutralRsiGivesNoSignal | TradingStrategy.py:15-18 | An RSI from 30 to 70 never signals |
| SignalRule.MacdOnSignalGivesNoSignal | TradingStrategy.py:15-18 | MACD on its signal line never signals |
| AutoTrading.Decision | main.py:24-30 | A call is made exactly when the signal differs from the position held: an order for a new signal, a close for no signal |
| AutoTrading.DecisionFollowsSignal | main.py:22-30 | After the call the trader holds what the signal says, and the log stays free of redundant orders and closes |
| AutoTrading.ReversalPlacesWithoutClosing | main.py:24-26 | A reversal places the new order without closing first |
| AutoTrading.AutoTrader.constructor | main.py:8-12 | Nothing held, nothing sent |
| AutoTrading.AutoTrader.Step | main.py:17-30 | No data changes nothing; otherwise the position becomes the signal and exactly the decision's call is logged, keeping the log free of redundant calls |

## Left out

- Browser automation, HTTP polling and websockets are not modelled: clicking orders, reading the page, `close_popups`, `check_session_and_relogin`, the price feeds and the TradingView client. The gateway's answers and the page's closable-amount texts are scripted inputs instead.
- The CSV logging, logging calls, `time.sleep` and the `while True` loops of both launchers are left out. Each pass of a loop is a method call with the time passed in.
- IEEE floating point is not modelled: prices, EMAs, amounts and sizes are exact reals. Only Python's half-to-even `round` is kept.
- `float()` on a typed-in seed (including "nan" and "inf") is reduced to "a number or not" in `Launcher.PromptUserSeed`.
- The `if self.position_tracker` and `if self.risk_manager` guards are left out, because the launchers always wire both. The order executor's presence is a flag.
- The `candle_closed` argument of the price-fed engine's `on_new_price` is unused by the code and is left out.
- Risk.RiskManager.ApplyPacingRules: the rest after three flat round trips followed by a hedge near the last close price is left out. It compares against `last_closed_entry_price`, which nothing assigns, so in the code the branch never fires. The model keeps the count and the hedge flag.
- Risk.RiskManager.Notify: the engines see `record_trade` only through this narrower contract (history appended, only closes sent). The engines' contracts therefore do not state the controller's pause and flags after a trade; RecordTrade states them.
- `datetime.now()` is read once per call: a single `now` serves every rule of one `record_trade`, and the rest starts and ends are measured from it.
- Launcher.MainLoop.ResetIfDue requires the clock not to go back to a date before the last reset. A clock moved back would let the code reset twice for one date.
- The UID table of mexc-autotrade-main/config/secrets.py is deployment data; it is a parameter of `Launcher.SymbolByUid`.
- `get_total_balance` and `get_unrealized_pnl` read the page; their parsed values are parameters of `CurrentProfit`, `SetInitialBalance` and `RealizedPnlByBalance`.
- The price-fed engine's sizes are reals, because `_close_long(amt)` subtracts a float amount.
- The docstring of the price-fed engine's `_check_strategy` names a golden cross for the hedge from 50 long and a dead cross for the hedge from 50 short. The code uses dead and golden, and the model follows the code.
- An empty indicator dictionary in the TradingView-fed bot is the `None` input of `AutoTrading.AutoTrader.Step`. A non-empty dictionary without the two keys is an `Indicators` value with both blocks missing.
