# EDGECORE ledgers, throttles and protocols in Dafny

EDGECORE is a Python pairs-trading engine. This project models the parts of it that keep books, throttle,
protect and allocate, and proves what they guarantee over every run, every interleaving or every input.
Money, prices and times are real numbers; signals, gates, costs, random draws, clocks and the broker are
inputs that may take any value the program allows.

| module | models |
|---|---|
| `Foundations` | sums of sequences and of map entries |
| `PairBook` | the open positions of a backtest, their marks, the close arithmetic, the tier-2 ranking |
| `Simulator` | the bar loop of `StrategyBacktestSimulator.run`, the block after it, the final force-close, the out-of-sample tracker |
| `SimulatorLaws` | what that loop guarantees over whole runs: the equity ledger and its overcounts, and how positions are marked |
| `CloseLaws` | exactly when a position enters and leaves: loss, time and trailing stops, tier 2, signals and partial profits, over a bar and over a pass |
| `EndLaws` | what is booked when everything goes: by a halt, and by the block and the force-close after the loop |
| `WindowLaws` | the returns and the out-of-sample window reported for a run |
| `Metrics` | total return, win rate, profit factor and P&L of `BacktestMetrics.from_returns` |
| `EventDriven` | fills, the bar loop and the cost ledger of the event-driven backtester |
| `Limiter` | the token bucket and its shared instance |
| `Breaker` | the generic circuit breaker with calls in flight |
| `Reconnect` | the reconnect breaker of the IBKR engine |
| `OrderMap` | order submission, its persisted map and recovery after a crash |
| `BookWalk` | the synthetic order book and the walk that prices an order |
| `Slicing` | TWAP and VWAP execution |
| `Exposure` | per-symbol concentration limits |
| `Lifecycle` | orders with deadlines |
| `WalkForward` | walk-forward splits |
| `ClientPool` | the shared pool of client ids |

Code that updates state is modelled as a class or a method with loops, and each is proved against a function of
the old state; the laws are lemmas about those functions. A run is a sequence of events applied to a state, an
interleaving a sequence of the atomic steps that hold the lock. `dafny verify dfyconfig.toml` checks the whole project
within Dafny's default time limit.

## Where the code and its documentation part

The model follows the code. These are the places where it does something its comments, or a reader, would not expect:

- A halt bar adds the close P&L of the open positions although their mark is already in the equity it adds to,
  and then forgets the mark. The final force-close does the same with the last mark
  (`SimulatorLaws.EquityLedger`, `SimulatorLaws.RunLedger`, `SimulatorLaws.ReportedProfitCanExceedTrades`). A run without
  a halt that inherits a mark, and with an empty book after the last bar, is free of it (`SimulatorLaws.QuietRunsAgree`).
- The block described as a check on every bar stands after the bar loop and runs once per position still open; each of its
  passes adds all P&L realised since the start of the last bar again (`SimulatorLaws.RunLedger`).
- A partial profit shrinks `notional` but not the two leg notionals that closing uses, so the part taken is
  realised a second time (`SimulatorLaws.PartIsRealisedTwice`).
- Portfolio values mark both legs at half the notional, while stops and closes use the beta-weighted legs: an open
  position is marked right only if its legs are equal or have had the same return
  (`SimulatorLaws.OpenPositionsAreMarkedRight`, `PairBook.MarkCanDiffer`), and a partial profit unsettles even that
  (`SimulatorLaws.PartUnsettlesTheMark`).
- The trades reported for the out-of-sample window are those closed after its first bar, whose P&L is in the window's
  returns: the report is complete only if that bar closes nothing (`WindowLaws.WindowSkipsItsFirstTrades`,
  `WindowLaws.WindowCanMissATrade`).
- The limiter's default of 45 a second with a burst of 10 is documented as below the broker's 50 a second, and can send 55
  messages in one second; the shared instance can send 48 (`Limiter.GlobalIsSafeDefaultIsNot`).
- A successful reconnect does not forgive a cycle, so separate outages add up to a dead gateway
  (`Reconnect.OutageCostsACycle`, `Reconnect.OutagesKill`).
- Reconciliation is documented as resolving orders whose permId timed out on a previous run. The orders waiting for it are
  kept in memory only, so after a restart no permId in the file ever changes again, whatever the broker reports
  (`OrderMap.RestartForgetsPending`, `OrderMap.CrashSettlesPermIds`, `OrderMap.TimedOutOrderIsLost`). And it matches
  `orderRef`, which placed orders are never given: without references it confirms nothing even in the same process
  (`OrderMap.UnreferencedOrdersStayUnconfirmed`).
- A crash between placing an order and saving its id lets the order be placed again (`OrderMap.LostNoteRepeatsTheOrder`).
- A pair of one symbol with itself is judged leg by leg and ends up with a share that was never judged, and its record
  counts it twice; adding an open pair's key again corrupts its symbols' records (`Exposure.SelfPairIsJudgedByHalf`,
  `Exposure.AddKeepsRecords`). A negative notional is added correctly, but lets a floor at zero bind in a later removal
  (`Exposure.RemoveKeepsRecords`, `Exposure.NegativeNotionalBreaksARemoval`).
- Orders that ran out of force-close attempts are flagged and reported again by later sweeps, and force-closing more than is
  outstanding overfills an order (`Lifecycle.FailedOrdersAreFlaggedAgain`, `Lifecycle.ForceCloseFills`).
- Above 78 slices the default VWAP profile still has 78 (`Slicing.DefaultLoopsAgree`). With a custom profile, the first bar
  without volume ends the execution, whatever follows it (`Slicing.VolumelessBarEndsExecution`).
- A list of trades without a loser is reported with a profit factor of zero (`Metrics.SummaryAgrees`), and without a positive
  AUM no concentration is ever too large (`Exposure.WithoutAumAllIsAllowed`).
- Without a price or a volume the event-driven backtester fills a share of the order, not of the volume
  (`EventDriven.FillWithinVolume`).

## Model

| member | source | states |
|---|---|---|
| `PairBook.SimulatedOrderBook.Open` | backtests/order_book.py:83-85 | a new key goes last in the book, an existing one keeps its place; no other entry changes |
| `PairBook.SimulatedOrderBook.Pop` | backtests/order_book.py:142-144 | exactly the entry of that key leaves and is returned; an absent key is an error that leaves the book alone |
| `PairBook.MarkAgreesWithUnrealized` | backtests/strategy_simulator.py:1159-1171 | for a position whose legs make up its notional, the mark in portfolio values equals its own unrealised P&L if and only if the legs are equal or both have had the same return |
| `PairBook.BetaLegsShareTheNotional` | backtests/strategy_simulator.py:956-971 | the legs of a beta-neutral entry make up its notional, the one sold is beta times the one bought whichever symbol that is, and they are equal only for a ratio of one (or no notional) |
| `PairBook.MarkCanDiffer` | backtests/order_book.py:39-51 | a beta-weighted position whose mark and unrealised P&L differ |
| `PairBook.SidesOppose` | backtests/order_book.py:45-51 | the short side of a position loses exactly what the long side gains |
| `PairBook.LongGains` | backtests/order_book.py:45-47 | a long pair never loses when its first symbol rises and its second falls |
| `PairBook.LegsEarnOnTheirOwn` | backtests/order_book.py:39-51 | moving only one symbol's price moves the P&L by that leg's own notional times the move over its entry price, up or down by the side; at its entry prices a position has earned nothing |
| `PairBook.UnpricedLegsEarnNothing` | backtests/order_book.py:39-51 | a leg entered at a price of zero earns nothing and leaves the other leg's P&L alone |
| `PairBook.CloseRealisesTheMark` | backtests/position_tracker.py:97-143 | a close realises the book's valuation at the next bar (the last at the end) less charges for the days held; daily and round-trip P&L differ by exactly the entry cost; the days end at the fill bar and are none if it comes before the entry |
| `PairBook.RankSorts` | backtests/order_book.py:133-136 | the ranking is in ascending order of unrealised P&L, for every book |
| `PairBook.WeakestAreWeakest` | backtests/order_book.py:122-136 | tier 2 gets as many distinct open keys as asked for (or all), and no position kept is worth less than one chosen |
| `Simulator.OOSTracker.Initialize` | backtests/simulation_loop.py:54-68 | the window opens at the first dated row at or after the start date, never before the warm-up ends, and not at all when there is no such row |
| `Simulator.OOSTracker.Record` | backtests/simulation_loop.py:74-89 | outside the window nothing changes; inside it every return is kept and the trade count of the first such bar only is noted |
| `Simulator.CloseLoop` | backtests/strategy_simulator.py:491-500 | the loop over a snapshot of keys books the specified closes; which ones those are for the two stops is `CloseLaws.LossStopsExactly` and `CloseLaws.TimeStopsExactly` |
| `Simulator.MarkLoop` | backtests/strategy_simulator.py:1159-1171 | the summed mark of the open positions |
| `Simulator.SignalLoop` | backtests/strategy_simulator.py:702-1116 | signals take effect one after another: entries at the next bar's price unless open, refused or without a next bar, exits when open |
| `Simulator.BarStep` | backtests/strategy_simulator.py:443-1179 | one bar is the specified step: halt or tier-2 closes, loss stops, signals, sync, time stops, mark, append; who is open after it is `CloseLaws.PositionsLeaveForAReason`, `CloseLaws.PositionsEnterBySignal` and `CloseLaws.HaltLeavesNone` |
| `Simulator.ProfitLoop` | backtests/strategy_simulator.py:1283-1341 | partial profit-taking over a snapshot of keys |
| `Simulator.TrailLoop` | backtests/strategy_simulator.py:1407-1443 | trailing stops raise the peak first and close once the drawback from it is too large |
| `Simulator.PassStep` | backtests/strategy_simulator.py:1208-1480 | one pass of the block after the loop, without resetting the realised P&L; who is open after it is `CloseLaws.PositionsLeaveAPassForAReason` |
| `Simulator.PassLoop` | backtests/strategy_simulator.py:1208-1480 | a pass for every key open at the end of the loop and not closed by an earlier pass |
| `Simulator.ForceClose` | backtests/strategy_simulator.py:1483-1507 | everything left is closed; a value is appended only when something was realised |
| `Simulator.Run` | backtests/strategy_simulator.py:307-1507 | the run is the bars after the warm-up, the passes and the final close; there is none when the frame is too short |
| `Simulator.BookCloseKeeps` | backtests/strategy_simulator.py:490-500 | booking a close keeps portfolio value plus realised P&L less trades, mark and open entry costs, and the agreement of all lists and registries |
| `Simulator.SettleKeeps` | backtests/strategy_simulator.py:471-1178 | what a bar adds to the value is what it adds to trades, mark and open costs, plus the inherited mark on a halt; recorded lists are left alone |
| `Simulator.PassKeeps` | backtests/strategy_simulator.py:1208-1480 | any mix of reverted, partial, time, loss and trailing closes keeps the ledger and the registries |
| `SimulatorLaws.BarLedger` | backtests/strategy_simulator.py:443-1179 | after a bar the registries agree with the book (partial-profit keys equal the open keys, spread and PCA keys are among them), the carried mark is the mark of what is open, the ledger is kept if and only if the bar is not a halt or inherits no mark, a halt leaves nothing open, and after an ordinary bar the strategy tracks only open pairs |
| `SimulatorLaws.EquityLedger` | backtests/strategy_simulator.py:443-1179 | after every bar of every run: value = initial capital + trades + carried mark - entry costs of open positions + the marks halts inherited; without that last term if and only if it is zero |
| `SimulatorLaws.RunLedger` | backtests/strategy_simulator.py:1199-1531 | over whole runs each accepted entry is closed exactly once, book and registries end empty, per-pair lists hold every trade, and reported profit differs from the trades' P&L by exactly three overcounts, agreeing if and only if they cancel |
| `SimulatorLaws.QuietRunsAgree` | backtests/strategy_simulator.py:443-1531 | if no bar was halted with a mark carried into it and the last bar leaves the book empty, reported profit is exactly the trades' P&L |
| `SimulatorLaws.CloseBookSparesTheRest` | backtests/strategy_simulator.py:625-654 | a closing loop over a snapshot of the book closes exactly the positions its trigger fires for and leaves the others as they were, in order |
| `SimulatorLaws.TierTwoClosesTheWeakest` | backtests/strategy_simulator.py:510-523 | tier 2 closes exactly the keys the ranking names |
| `SimulatorLaws.SameBarRoundTripEarnsNothing` | backtests/strategy_simulator.py:1076-1109 | a pair entered and exited by signals of one bar fills both times at the next bar's prices, earns nothing and costs its charges and entry cost |
| `SimulatorLaws.OpenPositionsAreMarkedRight` | backtests/strategy_simulator.py:443-1179 | over every run whose entries split the notional between the legs, a position open after any bar is marked at its unrealised P&L if and only if its legs are equal or have had the same return |
| `SimulatorLaws.PartUnsettlesTheMark` | backtests/strategy_simulator.py:1318-1333 | a partial profit shifts the mark against the unrealised P&L by the fraction of the mark: a position marked right stays so only if nothing was taken or its mark was nothing; with equal legs, only if nothing was taken, there is no notional or the returns cancel |
| `SimulatorLaws.DropKeepsActive` | backtests/strategy_simulator.py:1131-1147 | closes that also tell the strategy leave it with no pair the book lacks |
| `SimulatorLaws.AlwaysEmpties` | backtests/strategy_simulator.py:1486-1495 | force-closing a snapshot of the keys leaves no position |
| `SimulatorLaws.PartIsRealisedTwice` | backtests/strategy_simulator.py:1318-1333 | a partial profit and a close at any later bar together exceed what the two parts are worth by the fraction taken of the later P&L, and are right if and only if that is nothing |
| `CloseLaws.LossStopsExactly` | backtests/strategy_simulator.py:625-654 | after the loss stops a position is open if and only if it was and its loss is less than its own stop times its notional (without a notional: if its stop is above zero); without a limit nothing happens |
| `CloseLaws.TimeStopsExactly` | backtests/strategy_simulator.py:1131-1147 | after the time stops a position is open if and only if it was and its time, from its entry bar with its half-life, is not up |
| `CloseLaws.TierTwoExactly` | backtests/strategy_simulator.py:508-523 | tier 2 closes the whole number of positions in its fraction of the book, at least one, and none that is worth more than one it keeps |
| `CloseLaws.SignalsSpare` | backtests/strategy_simulator.py:702-1116 | a position open before a bar's signals stays if and only if no readable exit signal names its key, and what is new was entered from an admitted signal, at the next bar's prices and with its ticket's sizes, cost, half-life and stop |
| `CloseLaws.PositionsLeaveForAReason` | backtests/strategy_simulator.py:443-1179 | a position entered by now is open after an ordinary bar if and only if it was and is not among the weakest of tier 2, at its loss stop, named by an exit signal, or out of time |
| `CloseLaws.PositionsEnterBySignal` | backtests/strategy_simulator.py:702-1116 | a position not open before a bar is there only through an entry signal with a ticket, never on a halt |
| `CloseLaws.AdmittedSignalsEnter` | backtests/strategy_simulator.py:702-1125 | an admitted entry signal for a pair that is not open, the only one naming it in its bar and not out of time at once, is open after the bar with the ticket's figures, and registered for the monitors if and only if its spread is known |
| `CloseLaws.HaltLeavesNone` | backtests/strategy_simulator.py:471-509 | a halt closes every position and leaves the strategy's record alone |
| `CloseLaws.ActiveAfterBar` | backtests/strategy_simulator.py:1118-1147 | after an ordinary bar the strategy tracks exactly those of its pairs that are open |
| `CloseLaws.CloseRecords` | backtests/strategy_simulator.py:490-500 | a close appends, to the trades and to its own pair's list, the P&L at the next bar's prices less charges and entry cost, and the days held, and takes the pair out of every registry |
| `CloseLaws.TrailExactly` | backtests/strategy_simulator.py:1407-1443 | the trailing stops leave, in order, exactly the positions that are not both past the activation and past the gap below their peak, with their peak raised to today's P&L |
| `CloseLaws.ProfitsExactly` | backtests/strategy_simulator.py:1283-1341 | partial profit-taking closes, shrinks or leaves each position as its answer says, in order, and appends one trade for each part taken and each close |
| `CloseLaws.PositionsLeaveAPassForAReason` | backtests/strategy_simulator.py:1208-1480 | a position held by partial profit-taking is open after a pass, with its peak raised, if and only if it is not the one that reverted, out of time, at its loss stop or trailed out |
| `WindowLaws.TotalReturnIsEquityRatio` | backtests/strategy_simulator.py:1509-1528 | while the values before the last stay positive, the compounded return reported for the window is final value over the value the window opened with, less one, through ordinary, halt, trailing and final appends |
| `WindowLaws.WindowSkipsItsFirstTrades` | backtests/strategy_simulator.py:1511-1514 | over whole runs the trades reported for the window are exactly those closed after its first bar; they are all the trades closed in the window if and only if its first bar closes none |
| `WindowLaws.WindowCanMissATrade` | backtests/strategy_simulator.py:1511-1514 | a run whose only trade is closed on the window's first bar, with a profit of 5: the report leaves it out |
| `WindowLaws.BarsSplit` | backtests/strategy_simulator.py:443-1179 | a run over a prefix of the bars, continued over the rest, is the run over all of them |
| `SimulatorLaws.ReportedProfitCanExceedTrades` | backtests/strategy_simulator.py:1483-1531 | one position, up 5 at the end, without cost or halt: reported profit is 5 above the trades' P&L |
| `EndLaws.HaltBooksAll` | backtests/strategy_simulator.py:471-509 | a halt books every open position once, at the prices of the next bar (the last at the end), and nothing else |
| `EndLaws.LastBarBooksAll` | backtests/strategy_simulator.py:1199-1507 | however positions leave after the bar loop, reverted, out of time, stopped, trailed out, by a full profit or by the force-close: without partial profits, and with charges that ignore the recorded peak, each is booked once at the prices of the last bar, and nothing else is |
| `Metrics.GainsLessLosses` | backtests/metrics.py:108-115 | summed gains less summed losses are the summed P&L; no losses exactly when no trade lost; every trade counts as won exactly when all gained |
| `Metrics.WinsAreCounted` | backtests/metrics.py:108-115 | the wins are the trades above zero, and gains and losses together are the summed sizes of all trades |
| `Metrics.SummaryAgrees` | backtests/metrics.py:78-115 | the win rate is the share of trades above zero; with a loser the profit factor is gains over losses, above one exactly when the trades made money, and without one it is reported as zero |
| `Metrics.GrowthIsRatio` | backtests/metrics.py:78-80 | while values stay positive, the product of (1 + return) over any window is the ratio of the values at its ends |
| `EventDriven.FilledIsCapped` | backtests/event_driven.py:170-177 | with a price and a volume, the fill is the smaller of the order and the permitted share of the volume, and is marked partial exactly when the order is larger |
| `EventDriven.FillWithinVolume` | backtests/event_driven.py:478-487 | a positive order stays within the permitted share of the volume if and only if there is a volume and either a price or an order small enough |
| `EventDriven.FillIs` | backtests/event_driven.py:149-213 | the price is the close moved against the order by half the spread, the impact at its participation and, past a one percent gap, the gap slippage; the cost is the fee and the distance from the close on what is filled |
| `EventDriven.FillsAreAdverse` | backtests/event_driven.py:161-204 | with coefficients that worsen execution, a buyer never pays less than the close, a seller never gets more, and execution never pays |
| `EventDriven.ImmediateExitNeverGains` | backtests/event_driven.py:338-399 | a pair entered and left at the same closes never gains, even before costs, on either side |
| `EventDriven.GrossAtEntryIsNothing` | backtests/event_driven.py:396-406 | a position left exactly at its entry prices has earned nothing before costs |
| `EventDriven.GrossMovesWithFirstLeg` | backtests/event_driven.py:396-406 | moving only the first close moves the gross P&L by half the notional times the move over the entry price: with it when long, against it when short |
| `EventDriven.GrossMovesWithSecondLeg` | backtests/event_driven.py:396-406 | moving only the second close does the opposite |
| `EventDriven.LeavingBooks` | backtests/event_driven.py:371-420 | leaving appends one trade: it, the entry cost, both exit fills, holding and funding make up the gross P&L, and the capital moves by it |
| `EventDriven.TradeIsTheMoves` | backtests/event_driven.py:371-420 | a trade and all its costs together are half the notional times the relative moves of the two prices, taken from the position's side |
| `EventDriven.EnteringNotes` | backtests/event_driven.py:324-358 | an entry spends the allocated percentage of the capital on a buy and a sell and notes bar, side, fill prices, the smaller filled amount and its cost |
| `EventDriven.SignalDecides` | backtests/event_driven.py:311-425 | a signal opens its pair only if it is closed, quoted and not on an ex-date, closes it only if it is open and quoted, and touches no other |
| `EventDriven.LastSignalDecides` | backtests/event_driven.py:311-425 | after a bar's signals a quoted pair follows the last one about it, on an ex-date it can only have been closed, and unquoted it is as it was |
| `EventDriven.QuoteIs` | backtests/event_driven.py:460-476 | a quote needs only the symbol's price; close, previous close and volume are the row's, a missing volume a billion |
| `EventDriven.SplitIsExact` | backtests/event_driven.py:311-316 | cutting a pair at its underscores loses nothing and leaves none |
| `EventDriven.NoLookAhead` | backtests/event_driven.py:284-430 | for every strategy with a memory, values and trades on the first rows are a prefix of those on any longer data |
| `EventDriven.LaterRowsChangeNothing` | backtests/event_driven.py:284-300 | appending rows changes neither the backtest nor the strategy's memory at any earlier bar |
| `EventDriven.OneBar` | backtests/event_driven.py:428-430 | a bar appends exactly the capital it ends with, a return only from a positive value, and never rewrites a trade |
| `EventDriven.BarByBar` | backtests/event_driven.py:280-315 | each bar after the warm-up asks the strategy once, about all rows up to and with its own, and takes its signals at that row's prices |
| `EventDriven.EnterKeepsLedger` | backtests/event_driven.py:332-360 | an entry books its cost once, as cost and as the open position's charge |
| `EventDriven.LeaveKeepsLedger` | backtests/event_driven.py:371-418 | a close takes entry, exit, holding and funding costs from the gross result and keeps both balances |
| `EventDriven.CapitalLedger` | backtests/event_driven.py:302-430 | at every bar capital = initial + net P&L of trades = initial + gross P&L - all costs + entry costs of open positions |
| `EventDriven.ReturnsMatchValues` | backtests/event_driven.py:428-430 | while values stay positive every return is the change between the values around it |
| `EventDriven.ReportAgrees` | backtests/event_driven.py:432-444 | the reported total return times the initial capital is the summed P&L of the reported trades |
| `EventDriven.ProcessSignals` | backtests/event_driven.py:311-425 | the signal loop takes effect one signal after another on one state, each as `EventDriven.SignalDecides`, `EventDriven.EnteringNotes` and `EventDriven.LeavingBooks` say |
| `EventDriven.Run` | backtests/event_driven.py:225-444 | no report when the data is not longer than the lookback; otherwise values, costs and report of all bars, each trade as `EventDriven.TradeIsTheMoves` says |
| `Limiter.LevelIsMinimum` | execution/rate_limiter.py:114-126 | the closed form is the minimum of the burst and, over past grants, their window's allowance less the grants in it |
| `Limiter.LevelRefills` | execution/rate_limiter.py:119-126 | refills compose: any split of a stretch of time earns the same |
| `Limiter.BucketIsLevel` | execution/rate_limiter.py:95-126 | after any polls, granted or refused, the refilled bucket holds exactly the closed form of the grants |
| `Limiter.RefusesOnlyWhatBreaksAWindow` | execution/rate_limiter.py:95-108 | in every trace grants are legal, and a poll is refused if and only if granting it would overfill some window |
| `Limiter.RefusedPollsLeaveNoTrace` | execution/rate_limiter.py:103-108 | histories with the same grants answer every later poll alike |
| `Limiter.WindowBound` | execution/rate_limiter.py:76-126 | in every interleaving no interval sees more grants than burst + rate * length |
| `Limiter.GrantsTheMost` | execution/rate_limiter.py:63-108 | no selection of polls that respects every window grants more than the limiter, at any point of any trace |
| `Limiter.CapExactly` | execution/rate_limiter.py:38-48 | a cap per second holds in every trace if and only if the burst is zero or burst + whole tokens of a second fit in it |
| `Limiter.GlobalIsSafeDefaultIsNot` | common/ibkr_rate_limiter.py:4-18 | the shared instance never exceeds 48 messages in a second (and reaches it), the class default exceeds 50 |
| `Limiter.TokenBucketRateLimiter.RefillTo` | execution/rate_limiter.py:114-126 | the bucket gains what the elapsed time earns, up to the burst |
| `Limiter.TokenBucketRateLimiter.TryAcquire` | execution/rate_limiter.py:95-108 | granted if and only if one more grant breaks no window; exactly then the grant is recorded |
| `Limiter.TokenBucketRateLimiter.Acquire` | execution/rate_limiter.py:63-93 | one token exactly on success among any rivals; a refused round is the last if and only if the wait for the next token does not end by the deadline; on a timeout no token would have come by the deadline, less the time between reading the bucket and reading the clock |
| `Limiter.InTimeMeans` | execution/rate_limiter.py:80-91 | for a refused round and a burst of at least one, that wait ends by the deadline if and only if some moment by then, less the same time, has a token to give |
| `Breaker.SaneFromTheStart` | common/circuit_breaker.py:130-242 | over every interleaving: closed means fewer consecutive failures than the threshold, half-open none and too few successes, one consecutive counter is zero, counted outcomes never exceed calls |
| `Breaker.NoAdmissionInsideTheWindow` | common/circuit_breaker.py:130-155 | however checks and completions interleave, no call is admitted until more than the timeout has passed since every earlier opening, failed probes included |
| `Breaker.AdmittedUnlessOpen` | common/circuit_breaker.py:130-155 | a check is admitted if and only if the breaker is not open, or its window has passed and the probe is not unhealthy; only a check past the window changes anything |
| `Breaker.AdmittedWhileNotOpen` | common/circuit_breaker.py:130-155 | in every interleaving a check is admitted while the last transition so far is not an opening |
| `Breaker.AdmittedAgainAfterTheWindow` | common/circuit_breaker.py:135-155 | after an opening, whatever is refused or completes in between, the next check is admitted if and only if the window since that opening has passed and its probe is not unhealthy |
| `Breaker.RunFoldsItsLog` | common/circuit_breaker.py:167-242 | state and all counters are folds over the log of outcomes and transitions |
| `Breaker.OpensAtTheFirstRun` | common/circuit_breaker.py:188-203 | from closed, open exactly when the outcomes contain the threshold of consecutive failures |
| `Breaker.HalfOpenDecides` | common/circuit_breaker.py:176-199 | from half-open, closed exactly after the required successes in a row, open at the first failure before that |
| `Breaker.CircuitBreaker.Admit` | common/circuit_breaker.py:130-155 | admitted if and only if not open, or past the timeout with a probe that is not unhealthy; the state is left alone unless open and past the timeout, and is then half-open or, on an unhealthy probe, open anew |
| `Breaker.CircuitBreaker.RecordSuccess` | common/circuit_breaker.py:167-186 | success counters up, failure run ended, and closed with cleared counters exactly when half-open and the required successes are in |
| `Breaker.CircuitBreaker.RecordFailure` | common/circuit_breaker.py:188-211 | failure counters up, success run ended, and open at once from half-open or at the threshold unless open already |
| `Breaker.CircuitBreaker.TransitionToClosed` | common/circuit_breaker.py:234-240 | closing clears the failure count and both consecutive counters, not the successes or calls |
| `Breaker.CircuitBreaker.Call` | common/circuit_breaker.py:115-165 | a call nobody overtakes runs if and only if it is admitted, is one completion if it runs, and changes nothing if refused inside the window |
| `Reconnect.SaneFromTheStart` | execution/ibkr_engine.py:112-220 | in every run: cycles within the limit, dead exactly at the limit, window = base * min(2^cycle, 4), at most five failures counted |
| `Reconnect.DeadIsAbsorbing` | execution/ibkr_engine.py:122-128 | without an operator a dead gateway stays dead and cycles never go down |
| `Reconnect.FailingRoundsAreBounded` | execution/ibkr_engine.py:130-220 | without success or reset at most five failing rounds per allowed cycle, exactly that many at death |
| `Reconnect.DeathTakesItsTime` | execution/ibkr_engine.py:131-158 | no death before the windows of all cycles have been waited out, whatever succeeded in between |
| `Reconnect.OutageCostsACycle` | execution/ibkr_engine.py:117-158 | an outage that ends well, at the first or a later attempt of its last round, still costs a cycle, and the last one kills |
| `Reconnect.OutagesAddUp` | execution/ibkr_engine.py:117-158 | after n well-ended outages an engine is n cycles on, or at its limit and dead, whichever comes first |
| `Reconnect.OutagesKill` | execution/ibkr_engine.py:117-158 | a fresh engine is dead after n well-ended outages if and only if n reaches the limit |
| `Reconnect.Gateway.EnsureConnected` | execution/ibkr_engine.py:112-220 | which of connected, dead, refused and failed a call ends in, from the old fields: it connects if live or if any attempt of a round it makes does; what each outcome does to every field |
| `Reconnect.Gateway.ResetGatewayDead` | execution/ibkr_engine.py:237-248 | the operator's reset clears death, cycles and failures and restores the base window |
| `OrderMap.PlacedOncePlusLostNotes` | execution/ibkr_engine.py:287-348 | in every run with crashes anywhere, an order was placed as often as crashes lost its note, plus one if it is known or just placed; live and pending ids are persisted ones; ids in the file are never placed |
| `OrderMap.NeverPlacedAgain` | execution/ibkr_engine.py:294-301 | once an id is in the file no run places it again |
| `OrderMap.SavedForever` | execution/ibkr_engine.py:403-436 | across crashes an id in the file stays there and its permId never returns to 0 |
| `OrderMap.FileOnlyGrows` | execution/ibkr_engine.py:403-436 | from the first start on, at any point of any run, what is in the file then is never lost later, and no permId in it returns to 0 |
| `OrderMap.RememberedUntilACrash` | execution/ibkr_engine.py:306-333 | within a process a known id stays known and its permId never returns to 0 |
| `OrderMap.LostNoteRepeatsTheOrder` | execution/ibkr_engine.py:305-313 | the bound is reached: a crash between placing and saving places the order twice |
| `OrderMap.RestartForgetsPending` | execution/ibkr_engine.py:250-263 | from a restart over any file, in every run of resubmissions, disconnects, reconciliations and crashes, an id in the file keeps the permId it has there: one saved with 0 is never confirmed |
| `OrderMap.CrashSettlesPermIds` | execution/ibkr_engine.py:250-284 | at any point of any run a crash settles every saved id: whatever follows, the file and the engine keep the permId it had in the file then |
| `OrderMap.TimedOutOrderIsLost` | execution/ibkr_engine.py:250-284 | a timed-out order is confirmed by a report in the same process; with a crash in between it stays at 0 in every later run |
| `OrderMap.UnreferencedOrdersStayUnconfirmed` | execution/ibkr_engine.py:268-277 | if reports carry no reference, as placed orders are given none, an order whose poll timed out stays at 0 in every later run, crash or not |
| `OrderMap.MatchingConfirms` | execution/ibkr_engine.py:268-277 | looking through the broker's list gives each pending order the first permId listed for it and touches no other order |
| `OrderMap.ReconciliationConfirms` | execution/ibkr_engine.py:250-284 | a reconciliation from any idle state confirms, in memory and in the file, exactly the pending orders the broker lists with a permId |
| `OrderMap.DisconnectedOrdersAreConfirmed` | execution/ibkr_engine.py:222-284 | from any reachable idle state, an order live at a disconnect is saved and pending; the next reconciliation puts the first permId listed for it in the file, and leaves it pending, with the permId it had, if and only if none is listed |
| `OrderMap.IBKRExecutionEngine.PlaceOrderWithRetry` | execution/ibkr_engine.py:350-375 | places if and only if an attempt places after nothing but transient errors, within three attempts; never twice |
| `OrderMap.IBKRExecutionEngine.AwaitPermId` | execution/ibkr_engine.py:315-341 | the first nonzero reading is recorded and saved and the order is no longer pending; none leaves it pending and the map unchanged |
| `OrderMap.IBKRExecutionEngine.SubmitOrder` | execution/ibkr_engine.py:287-348 | a run of the protocol's steps; succeeds if and only if the id was known or it was placed; a new order is then placed exactly once, live, and in memory and file with the first permId read, pending if there is none; otherwise maps, file and order sets are as they were |
| `OrderMap.IBKRExecutionEngine.OnDisconnect` | execution/ibkr_engine.py:222-229 | pending gains exactly the live orders, none is live any more, the map is unchanged and saved; without live orders nothing happens |
| `OrderMap.IBKRExecutionEngine.ReconcilePendingConfirm` | execution/ibkr_engine.py:250-284 | exactly the pending orders listed with a permId are resolved, each by the first such one; the count is how many, and the file is saved if and only if there are any |
| `BookWalk.SpreadIsCapped` | execution/order_book.py:101-125 | volatility widens the spread in proportion, never past twice, three or five times the configured one, which is met exactly from a stated volatility on |
| `BookWalk.OrderCount` | execution/order_book.py:163-163 | one order per whole fifty of quantity, at least one |
| `BookWalk.WorseLevelsAreThinner` | execution/order_book.py:192-199 | every level has between 32% and 120% of the mode's volume; with equal draws one further out has less |
| `BookWalk.GenerateAskLevels` | execution/order_book.py:169-209 | the levels climb from the best ask by equal rungs, with tapered positive quantities and one order for every whole fifty |
| `BookWalk.GenerateBidLevels` | execution/order_book.py:127-167 | the levels descend from the best bid by equal rungs, with tapered positive quantities |
| `BookWalk.CreateOrderBook` | execution/order_book.py:54-99 | for a positive mid price asks strictly rise and bids strictly fall from half the spread on either side, volumes are the summed quantities, and the book is uncrossed if and only if spread plus two rungs is positive |
| `BookWalk.SidesMirror` | execution/order_book.py:72-209 | level i of either side of a generated book is half the spread and i + 1 level distances from the mid price, in basis points of it; the distance is the mode's fixed one or the spread over the level count if larger |
| `BookWalk.NominalDepth` | execution/order_book.py:127-209 | with equal draws a side holds 380, 1825 or 5400 units times the draw, by mode |
| `BookWalk.GeneratedIsOrdered` | execution/order_book.py:127-209 | around a positive mid price the generated asks strictly rise and the bids strictly fall |
| `BookWalk.WalkFills` | execution/order_book.py:237-245 | the walk takes no more than a level has and fills exactly the smaller of order and depth |
| `BookWalk.WalkLeavesLeast` | execution/order_book.py:237-245 | at the marginal price no allocation of any size beats the walk |
| `BookWalk.WalkIsCheapest` | execution/order_book.py:237-245 | no allocation of the filled quantity costs a buyer less |
| `BookWalk.WalkEarnsMost` | execution/order_book.py:237-245 | no allocation of the filled quantity earns a seller more |
| `BookWalk.AverageRises` | execution/order_book.py:247-250 | a larger buy fills at least as much and never pays less per unit; the average lies between the first and the last price reached |
| `BookWalk.AverageFalls` | execution/order_book.py:247-250 | a larger sell never earns more per unit |
| `BookWalk.GeneratedBooksAreWalkedBest` | execution/order_book.py:54-258 | on every book generated around a positive mid price the walk is the buyer's cheapest and the seller's best fill |
| `BookWalk.EstimateExecutionPrice` | execution/order_book.py:211-258 | the loop prices exactly the greedy allocation; nothing filled quotes the first price; an empty side or a first price of zero is an error |
| `Slicing.Twap` | execution/algo_executor.py:142-210 | for every order, volume and cap fills exactly the executable quantity, each slice its even share (or what is left), off the reference price by the impact in basis points times the root of the part begun, up for a buy and down for a sell; the average is the cost per unit, the reported impact its distance from the reference; no slices is an error |
| `Slicing.Vwap` | execution/algo_executor.py:307-375 | over any profile each slice takes its weight's share (or what is left), off the reference price by the impact times the root of the part begun over the bar's relative volume (0.3 at least), up to the first bar without volume; over positive weights that sum to one it fills exactly the executable quantity, in as many slices, as TWAP does |
| `Slicing.ImpactMovesThePrice` | execution/algo_executor.py:171-180 | a slice's price is off the reference by price * impact * scale * root((i + 1) / n) basis points, against the order |
| `Slicing.ImpactIsFelt` | execution/algo_executor.py:171-180 | with positive price, impact, scale and root every slice is strictly worse than the reference, and the last of equal slices by exactly the configured impact |
| `Slicing.Partakes` | execution/algo_executor.py:142-149 | every slice reports the participation of the whole order in the volume of all its bars, before the cap |
| `Slicing.ExecutableIsCapped` | execution/algo_executor.py:142-159 | for a positive order, volume and cap the executable quantity is the smaller of the order and the cap's part of the volume of n bars |
| `Slicing.WeightsFillExecutable` | execution/algo_executor.py:307-355 | what a loop promises over weights that sum to one is the executable quantity, so both loops fill the same |
| `Slicing.VolumelessBarEndsExecution` | execution/algo_executor.py:310-330 | over weights that sum to one, some of them zero, an order is executed in full if and only if no bar with volume follows one without |
| `Slicing.LaterAndThinnerIsWorse` | execution/algo_executor.py:332-345 | a later slice or a bar with less volume never gets a better price |
| `Slicing.SliceIsItsShare` | execution/algo_executor.py:317-329 | the size computed for a slice of positive weight is that share of one uncut quantity; any other weight gives nothing to fill |
| `Slicing.CapsAllOrNone` | execution/algo_executor.py:320-326 | no slice exceeds its cap, and the cap cuts all slices or none |
| `Slicing.ShareFits` | execution/algo_executor.py:328-330 | what is left of the order always has room for the next share |
| `Slicing.ProfileIsWeights` | execution/algo_executor.py:269-283 | the default profile resampled to n bins has min(n, 78) positive weights that sum to one |
| `Slicing.BinsKeepShares` | execution/algo_executor.py:279-283 | bin i of n has bars 77i/n to 77(i+1)/n of the day, cut down, and weighs what they weigh among the first 77: the last bar's volume is lost |
| `Slicing.DefaultLoopsAgree` | execution/algo_executor.py:269-283 | with the default profile both loops fill the same if and only if there are at most 78 slices or the order fits into 78 |
| `Exposure.TruthAfterAdd` | execution/concentration_limits.py:250-264 | opening a position changes the sums, count and pairs of its two symbols once each and of no other |
| `Exposure.TruthAfterRemove` | execution/concentration_limits.py:266-280 | closing a position takes it off the sums, count and pairs of its two symbols and of no other |
| `Exposure.AddKeepsRecords` | execution/concentration_limits.py:102-190 | a rejected add changes nothing; an accepted one keeps every record equal to the sums over open positions if and only if its key is new and its symbols differ, whatever the sign of its notional |
| `Exposure.RemoveKeepsRecords` | execution/concentration_limits.py:266-280 | removing a pair of two symbols keeps every record equal to the sums if and only if neither floor at zero binds; an unknown key changes nothing |
| `Exposure.NegativeNotionalBreaksARemoval` | execution/concentration_limits.py:266-280 | +3 and -5 on one symbol are accepted and recorded exactly; closing the +3 leaves the record at 0 where -5 is open |
| `Exposure.RemoveKeepsExact` | execution/concentration_limits.py:192-222 | with notionals that are not negative the floors never bind and a removal keeps the records exact |
| `Exposure.RunsWithTheSamePositionsAgree` | execution/concentration_limits.py:250-280 | two runs that end with the same open positions end with the same records, whatever was added, removed or rejected in between and under whatever limits |
| `Exposure.RemoveUndoesAdd` | execution/concentration_limits.py:192-222 | removing what was just added restores every symbol's record |
| `Exposure.SharesAreAsProjected` | execution/concentration_limits.py:224-248 | after an add the touched symbols have the shares that were judged, the others theirs |
| `Exposure.JudgedByTheOutcome` | execution/concentration_limits.py:132-171 | a pair of two symbols is let in if and only if both would be within the limit with it; a refusal names the first that would not, with the share it would have |
| `Exposure.WithoutAumAllIsAllowed` | execution/concentration_limits.py:224-248 | with an AUM that is not positive no symbol has a share, and every pair is let in, whatever its size |
| `Exposure.SelfPairIsJudgedByHalf` | execution/concentration_limits.py:132-171 | a pair of one symbol adds twice the notional it was judged on |
| `Exposure.RunIsExactAndWithin` | execution/concentration_limits.py:102-280 | over every run of careful adds and of removes the records are exact and no symbol passes the limit while the AUM is fixed |
| `Exposure.EveryRunIsExactAndWithin` | execution/concentration_limits.py:76-98 | the same from a new manager, with any limit that is not negative |
| `Exposure.UpdatedAumWithin` | execution/concentration_limits.py:321-325 | a new AUM keeps a symbol within the limit if and only if its gross exposure is at most that part of it |
| `Exposure.ConcentrationLimitManager.AddPosition` | execution/concentration_limits.py:102-190 | judged on both symbols' projected shares, first symbol first; the whole new state |
| `Exposure.ConcentrationLimitManager.RemovePosition` | execution/concentration_limits.py:192-222 | the whole new state; an unknown key changes nothing |
| `Exposure.ConcentrationLimitManager.CalculateExposureIfAdded` | execution/concentration_limits.py:224-248 | the share the symbol would have |
| `Exposure.ConcentrationLimitManager.UpdateAum` | execution/concentration_limits.py:321-325 | only a positive AUM is accepted |
| `Exposure.ConcentrationLimitManager.GetAvailableCapacity` | execution/concentration_limits.py:311-319 | zero exactly at or above the limit, else what is missing to it |
| `Exposure.ConcentrationLimitManager.ResetAll` | execution/concentration_limits.py:397-402 | nothing is left |
| `Lifecycle.RunKeepsInv` | execution/order_lifecycle.py:133-487 | over every run orders and attempt counters have the same ids, and an order's history holds one force-close per attempt up to the permitted number |
| `Lifecycle.FlaggedInTime` | execution/order_lifecycle.py:264-296 | with sweeps at gaps of at most d, an order left alone is not open any more once check interval + d have passed since its deadline, whatever happens to other orders |
| `Lifecycle.ForceCloseFills` | execution/order_lifecycle.py:327-390 | force-closing resolves the order and fills it exactly if and only if the quantity is what is outstanding, overfills it if and only if it is more |
| `Lifecycle.ReportedRestFillsTheOrder` | execution/order_lifecycle.py:209-390 | from an update through a sweep to a force-close: whatever part is reported filled, the sweep reports the rest as outstanding, and force-closing that rest fills the order to the unit |
| `Lifecycle.SymbolsRefused` | execution/order_lifecycle.py:162-170 | an empty symbol, six letters, a dot or two final newlines are refused |
| `Lifecycle.FailedOrdersAreFlaggedAgain` | execution/order_lifecycle.py:366-372 | an order out of attempts is flagged again by a later sweep and can only fail again |
| `Lifecycle.OrderLifecycleManager.CreateOrder` | execution/order_lifecycle.py:133-207 | which inputs are refused and why, in the order of the checks; every field of a new order, its deadline a timeout after now |
| `Lifecycle.OrderLifecycleManager.UpdateOrder` | execution/order_lifecycle.py:209-262 | done if and only if the id is known and the quantity between 0 and the initial one: then filled quantity and status are stored, the event or events noted, and nothing else changes; otherwise nothing does |
| `Lifecycle.OrderLifecycleManager.CheckForTimeouts` | execution/order_lifecycle.py:264-325 | an effective sweep flags exactly the unresolved orders past their deadline, each listed once with one action for what is outstanding; one too soon does nothing |
| `Lifecycle.OrderLifecycleManager.ForceCloseOrder` | execution/order_lifecycle.py:327-390 | which calls are refused, which exhaust the attempts, and the whole new state |
| `Lifecycle.OrderLifecycleManager.CleanupResolvedOrders` | execution/order_lifecycle.py:453-487 | removes exactly the resolved orders last changed before the cutoff, from both maps, and returns how many |
| `WalkForward.SplitWalkForward` | backtests/walk_forward.py:33-95 | which inputs are refused; otherwise k splits whose equal test blocks, as long as `WalkForward.BlockRowsExactly` says, follow each other and end with the data, each training on all rows before; the second shortage of rows is possible only for ratios above one |
| `WalkForward.EveryLaterRowIsTestedOnce` | backtests/walk_forward.py:72-85 | training window and all later test blocks put together are the data |
| `WalkForward.FirstWindowIsLargest` | backtests/walk_forward.py:59-70 | for ratios of at most one the first training window is at least as long as a test block |
| `WalkForward.BlockRowsExactly` | backtests/walk_forward.py:62-66 | a test block is the whole rows of n * ratio / (k + 1), or one row where that is less: rounding twice and towards zero loses nothing |
| `WalkForward.LargeRatioLeavesNoTraining` | backtests/walk_forward.py:66-70 | a ratio above one that does reach the second complaint |
| `ClientPool.LoadsShareThePool` | data/loader.py:157-186 | over every interleaving of loads no id is held twice, at most eight are held, each id taken is given back once or still held, a thread sleeps exactly when all eight are held, and while ids are free no sleeper is left without a thread awake |
| `ClientPool.LoadsLetGo` | data/loader.py:61-186 | in every interleaving a try takes the lowest id nobody holds, and a load whose connection fails or that ends holds none any more: its id is free and nobody else's is |
| `ClientPool.StepCounts` | data/loader.py:61-146 | every step of a load keeps those counts, and keeps at least as many threads awake as ids are free whenever somebody sleeps |
| `ClientPool.StepKeepsExclusive` | data/loader.py:165-186 | every step keeps the ids in use equal to the ids held, each by one thread |
| `ClientPool.ClientIds.TryNextClientId` | data/loader.py:171-179 | one pass takes the lowest free id; with none free the caller goes to sleep on the condition |
| `ClientPool.ClientIds.ReleaseClientId` | data/loader.py:182-186 | the id is free again and one sleeper, if there is one, is woken; an id not in use is not taken from anyone |

## Left out

- Floating point: rounding, NaN and infinities; the code's floats are real numbers here. Negative order sizes in the event-driven
  backtester, whose square root would be NaN, and divisions by a zero entry price there, yield an unspecified real number.
- Strategies, entry gates, sizing, regime filters, cost formulas, square roots and z-scores: inputs or abstract functions.
- Sharpe, Sortino, drawdown, VaR and the other statistics of `from_returns`; per-pair statistics; report rounding.
- The recorders called by `close_position` (blacklist, Kelly sizer, combiner): they do not feed back into the ledger of a bar.
- Look-ahead in `StrategyBacktestSimulator`: its event filter reads the whole frame; only the event-driven backtester is claimed free of it.
- Exceptions swallowed by the trailing block while it computes a z-score: such a pass counts as not reverted.
- `SimulatedOrderBook` positions are values: updates in place of a position dict are replacements of its entry.
- `SymbolExposure` and `OrderLifecycle` records are values in their maps: a caller's changes to a returned record are not captured.
- Lifecycle: the clock is read once per operation, and event messages are dropped; `get_stale_orders` and the statistics are read-only listings.
- `Limiter.TokenBucketRateLimiter.Acquire`: does not state that a timeout means no token could come by the deadline, because the
  wait is computed at one clock reading and added to a later one; the bound is earlier by the difference. Sleeping is an input.
- The breaker's `reset`, its test setters, the registry and its logging; callables and probes are outcomes chosen by the environment.
- Order map: failing writes and an unreadable file, the file's format and backup, cancelling, statuses and market data; an attempt
  that both places and raises.
- The engine's client-id registry and the loader class that takes ids without giving them back: no exclusivity is claimed there.
- `Order` sides other than "buy" in the book walk count as sells, as in the code; liquidity metrics and order updates are not modelled.
- `Slicing.Vwap`: a profile with a negative weight together with a negative participation cap, where the signs cancel.
- `run_walk_forward` beyond the splits; the loader beyond its client ids; broker, socket, file, GUI and HTTP work.
