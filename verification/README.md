# A Dafny model of the bybit-backtester trading account and replay rules

This project models the core of a backtester for inverse (BTC-settled) perpetual contracts. Profit is counted in the base currency from reciprocal prices. The model covers these parts:

- **The account.** One live position at a time. Opening a position sizes it by stop risk and charges the entry fee. Closing it realises the inverse-contract profit, charges the exit fee, moves the balance and classifies the trade as won, lost or even. Each close updates the daily and total counters, the high-water mark and the drawdown. A per-bar update resets the daily counters at a day rollover, then fills the stop before the take-profit. The report gives the strike rate and the growth.
- **The legacy account.** It sits at the repository root and keeps its own sizing, profit and fee rules.
- **The engine's rules.** These are signal resolution, the no-trade-hours filter, the daily risk gate, higher-timeframe bucketing and the forward-filled daily open.
- **The two replay drivers.** One is the engine's per-row `process_kline`. The other is the scalper's minute loop.
- **The utilities.** These are `percent`, the calendar predicates, the interval-string parser and the Bybit interval table.

The modules follow the source files:

| module | file | source |
|---|---|---|
| `Wrappers` | wrappers.dfy | the `Option` and `Result` types |
| `PyRuntime` | pyruntime.dfy | Python semantics the code relies on: exceptions, truthiness, `max`/`min`, `round`, `int()` on strings |
| `Utils` | utils.dfy | src/utils/utils.py |
| `Accounts` | accounts.dfy | src/account/account.py: fees, the records, the inverse arithmetic |
| `TestAccount` | test_account.dfy | src/account/test_account.py |
| `TestAccountProps` | test_account_props.dfy | invariants and worked examples of the account |
| `LegacyBacktester` | legacy_backtester.dfy | backtester.py |
| `Engine` | engine.dfy | src/engine/engine.py |
| `Backtester` | backtester.dfy | src/engine/backtester.py |
| `Skalpit` | skalpit.dfy | skalpit.py |

Modelling conventions:

- **Numbers.** Prices, sizes and balances are exact `real`s.
- **Rounding.** Python's `round(x)` and `round(x, 2)` are rounding to nearest with ties to even, applied to the exact value.
- **Time.** Timestamps are integer seconds and calendar fields are taken in UTC: the day is `ts / 86400`, the hour `(ts / 3600) % 24` and the minute `(ts / 60) % 60`. A calendar date is represented by its day number.
- **Exceptions.** The source mutates accounts in place and its drivers catch exceptions per row. Every account operation therefore returns a `Step`: the state as it stood when the call ended or raised, plus the exception raised, if any. The ZeroDivisionError, TypeError, KeyError and IndexError raise points of the source are modelled where they occur, after the mutations that precede them.
- **Data frames.** They become a sequence of rows (the engine driver) or maps from timestamp to value (the scalper), where a missing key is a KeyError.

Where the code and its documentation differ, the model follows the code:

- `result.stopped` records the account's `stopped` flag, not the `stopped` argument of `_close_position`. `close` passes `None` for that argument, and `update` sets the flag before a stop fill.
- The scalper's risk gate admits up to one win a day, where the engine's admits none.

## Model

| member | source | states |
|---|---|---|
| `Utils.Percent` | src/utils/utils.py:121-122 | the percentage change from f to t applied to f gives t; it is zero iff t equals f; for positive f its sign is the sign of t − f; undefined at f = 0 |
| `Utils.SameDayEquivalence` | src/utils/utils.py:115-119 | `sameday` is reflexive, symmetric and transitive, and holds iff both timestamps share the midnight that begins their day |
| `Utils.StartOfNesting` | src/utils/utils.py:99-113 | a day start is a four-hour start, a four-hour start is an hour start, an hour start is a quarter-hour start |
| `Utils.StartOfHourIff` | src/utils/utils.py:99-101 | a timestamp starts an hour iff it lies in the first 60 seconds of the hour |
| `Utils.StartOfMin15Iff` | src/utils/utils.py:107-109 | a timestamp starts a quarter hour iff it lies in the first 60 seconds of the quarter hour |
| `Utils.StartOfDayIff` | src/utils/utils.py:111-113 | a timestamp starts a day iff it lies in the first 60 seconds of the day |
| `Utils.IntervalToMs` | src/utils/utils.py:60-85 | fails with IndexError exactly on the empty string; a converted value implies the last character is one of the unit letters m, h, d, w; a prefix `int()` rejects gives None |
| `Utils.IntervalToMsOfCount` | src/utils/utils.py:60-85 | every printed integer followed by a unit letter converts to that many units in milliseconds |
| `Utils.IntervalToMsOfDigits` | src/utils/utils.py:79-85 | a digit string followed by a unit letter converts to its decimal value times the unit's seconds times 1000 |
| `Utils.IntervalToMsUnknownUnit` | src/utils/utils.py:79-85 | a string whose last character is not a unit letter converts to None |
| `Utils.IntervalToMsExamples` | src/utils/utils.py:60-85 | "1m" gives 60000, "4h" gives 14400000, "D" gives None, "m" and "1.5m" give None because `int()` rejects their prefix, and the empty string raises IndexError |
| `Utils.BybitNotation` | src/utils/utils.py:124-135 | succeeds exactly on the nine table keys and fails on any other key; only "D" maps to the daily marker |
| `Utils.BybitNotationAgreesWithIntervalToMs` | src/utils/utils.py:60-135 | every minute entry of the Bybit table times 60000 is the millisecond conversion of its key; "D" has no conversion because the unit lookup is case-sensitive |
| `Utils.GetOffset` | src/utils/utils.py:95-97 | an int, or a bool as Python's int subclass, gives its integer value; anything else gives 0 |
| `Utils.GetOffsetIdempotent` | src/utils/utils.py:95-97 | applying `get_offset` to its own result changes nothing; the offset is non-zero exactly for a non-zero int or True; a whole float, a digit string and None all give 0 |
| `PyRuntime.ParseDigits` | src/utils/utils.py:82 | `int()` of a non-empty digit string is its decimal value |
| `PyRuntime.ParseShowInt` | src/utils/utils.py:82 | `int()` reads back every integer as Python prints it, sign included |
| `PyRuntime.RoundHalfEven` | backtester.py:204 | the rounded value lies within one half of x, and on an exact tie it is even |
| `PyRuntime.Round2` | src/engine/backtester.py:66-67 | `round(x, 2)` lies within 0.005 of x and is a whole number of hundredths |
| `PyRuntime.Max` | src/account/test_account.py:123 | Python's `max` of two values is one of them and at least both |
| `PyRuntime.Min` | src/account/test_account.py:124 | Python's `min` of two values is one of them and at most both |
| `Accounts.NewAccount` | src/account/account.py:7-40 | a new account has balance, start balance and maximum balance equal, no live trade, no history, no last bar date, zero counters, zero drawdown and cleared flags |
| `Accounts.Classify` | src/account/test_account.py:119-121 | a trade is won iff its profit is positive, lost iff negative, even iff zero |
| `Accounts.CloseFlags` | src/account/test_account.py:118-121 | a close sets `closed` and exactly the flag of the outcome, keeping `stopped` |
| `Accounts.Rollover` | src/account/test_account.py:159-164 | the daily counters are zeroed exactly when the last bar date is set, non-zero and on another day; the totals are never touched |
| `Accounts.InversePnl` | src/account/account.py:42-45 | the profit of a position closed at its entry price is zero, for either side |
| `Accounts.InversePnlSign` | src/account/account.py:42-45 | with positive prices and size a long profits iff the exit is above the entry and loses iff below; a short the reverse |
| `Accounts.InversePnlSides` | src/account/account.py:42-45 | a short's profit is the exact negation of the long's, and equals the long's with entry and exit swapped |
| `Accounts.SizeByStopRisk` | src/account/account.py:47-56 | the size times the reciprocal-price distance to the stop equals the risked fraction of the balance, with a missing or zero stop read as 98 % of the entry; the size is non-negative when balance and risk agree in sign |
| `Accounts.LossAtStopIsRisk` | src/account/account.py:47-56 | with the stop on the losing side, closing the stop-risk size at the stop loses exactly the risked fraction of the balance, before fees |
| `Accounts.FillFee` | src/account/test_account.py:63-66 | a maker fill never costs and a taker fill never earns, and the two are in the ratio of the maker to the taker fee |
| `Accounts.Ratchet` | src/account/test_account.py:148-153 | the new stop is the old one or the price, at or above both for a long and at or below both for a short; a missing stop stays missing |
| `TestAccount.Open` | src/account/test_account.py:55-81 | the day's trade count rises by one; the live slot gets the trade `NewTrade` builds from the balance, overwriting any live trade; nothing else changes; ZeroDivisionError exactly for a zero price or a truthy stop equal to the price, and then no trade is installed |
| `TestAccount.NewTrade` | src/account/test_account.py:59-81 | the new trade carries the side, price, stop, take-profit, risk and open time, with the stop as its initial stop; with a truthy stop its size times the reciprocal-price distance to the stop is the risked fraction of the balance, otherwise its size is that fraction; its profit starts at the entry fill's fee, a maker rebate or a taker charge |
| `TestAccount.ClosePosition` | src/account/test_account.py:93-146 | the profit is the seed plus the inverse profit plus the exit fill's fee; the balance moves by it; the trade, otherwise unchanged, gets its exit, close time and result and is appended to the history; the live slot empties; the outcome is counted and flagged; the high-water mark is the larger of the old one and the new balance; the drawdown becomes the smaller of the old drawdown and the new balance's percentage change from the high-water mark; the raise points are a zero price or entry, a zero high-water mark and a zero balance |
| `TestAccount.Close` | src/account/test_account.py:83-91 | without a live trade nothing changes; otherwise the trade is closed at the price, by default as a maker fill, realising the seed plus the inverse profit plus the fill fee; a completed close moves the balance by that profit, counts its outcome, raises the high-water mark to the new balance if higher and sets the drawdown to the smaller of the old one and the new balance's percentage change from the high-water mark |
| `TestAccount.TightenStop` | src/account/test_account.py:148-153 | without a live trade nothing changes; a live trade without a stop raises TypeError; otherwise only the stop moves, never against the position, to the old stop or the price |
| `TestAccount.Update` | src/account/test_account.py:156-192 | the bar becomes the last bar date; without a live trade only the rollover and flag clearing happen; a stop reached by the bar closes the trade at the stop as a taker fill, flagged and recorded as stopped, before the take-profit is looked at; otherwise a reached take-profit closes it there as a maker fill, not stopped; otherwise the trade stays; a fill moves the balance by its profit, counts its outcome on top of the rolled-over counters and updates the high-water mark and drawdown as a close does; a missing stop or take-profit raises TypeError |
| `TestAccount.GetResult` | src/account/test_account.py:13-23 | fails with ZeroDivisionError iff there are no trades or the start balance is zero; otherwise the strike rate times the trade count is a hundred times the wins, the growth carries the start balance to the balance, and the totals and drawdown are reported |
| `TestAccount.LastTrade` | src/account/test_account.py:25-26 | the last closed trade, present iff the history is non-empty |
| `TestAccount.LastTradeAfterClose` | src/account/test_account.py:25-26 | after a completed close the last trade is the trade just closed, with its exit at the closing price, its close time and the realised profit; a close that raises leaves the last trade as it was |
| `TestAccountProps.CountOutcome` | src/account/test_account.py:126-134 | the number of trades with an outcome is at most the history's length, and equals it only when every trade has that outcome |
| `TestAccountProps.OutcomesPartition` | src/account/test_account.py:118-134 | on a history of closed trades the won, lost and even counts add up to its length |
| `TestAccountProps.NewAccountSound` | src/account/account.py:21-40 | a new account with a positive start balance satisfies the account invariant and its totals count its history |
| `TestAccountProps.OpenPreservesInvariants` | src/account/test_account.py:55-81 | `open` keeps the invariant and the agreement of the totals with the history |
| `TestAccountProps.ClosePreservesInvariants` | src/account/test_account.py:93-146 | a close keeps the invariant even when it raises, and a completed close keeps the totals counting the history |
| `TestAccountProps.CloseRaisesOnlyOnZero` | src/account/test_account.py:93-146 | under the invariant a close completes whenever the price, the entry and the balance are non-zero |
| `TestAccountProps.UpdatePreservesInvariants` | src/account/test_account.py:156-192 | the per-bar update keeps the invariant, and a completed update keeps the totals counting the history |
| `TestAccountProps.TightenStopPreservesInvariants` | src/account/test_account.py:148-153 | moving the stop keeps the invariant and the totals |
| `TestAccountProps.StrikeRateBounds` | src/account/test_account.py:13-16 | when the totals count the history the strike rate lies between 0 and 100 |
| `TestAccountProps.RolloverOncePerDay` | src/account/test_account.py:158-166 | after an update, another update on the same day does not reset the daily counters |
| `TestAccountProps.RolloverOnNewDay` | src/account/test_account.py:158-192 | the first update on a new day resets before it looks at the trade: with no live trade, with a live trade the bar does not fill, or on a TypeError, the four daily counters end at zero and the totals are kept; a fill on that bar is counted on top of the reset counters |
| `TestAccountProps.TightenAllRatchets` | src/account/test_account.py:148-153 | over any sequence of `tightenstop` calls a long's stop ends at or above its start and every price offered, a short's at or below |
| `TestAccountProps.ExampleOpenLong` | src/tests/testaccount_test.py:8-13 | a long at 50000 with stop 49000 risking 5 % of 1 has size 122500 and entry seed −0.0018375 |
| `TestAccountProps.ExampleCloseWin` | src/tests/testaccount_test.py:15-25 | closing that trade at 51000 realises a profit that rounds to 0.04680221, the balance moves by it, and the growth rounds to 4.68 % |
| `TestAccountProps.ExampleCloseLoss` | src/tests/testaccount_test.py:27-39 | a long at 10000 with stop 8000 has size 2000; closing at 8000 loses 0.0500875, leaving 0.9499125, a growth that rounds to −5.01 % |
| `LegacyBacktester.NewLegacyAccount` | backtester.py:9-37 | the legacy account starts with balance 1, fees on in maker-taker mode, no trade, no history, no last bar date, zero counters and cleared flags |
| `LegacyBacktester.Contracts` | backtester.py:204 | the whole-contract count lies within one half of size times entry |
| `LegacyBacktester.LegacyPnl` | backtester.py:203-207 | the legacy profit is the inverse-contract profit of the rounded contract count |
| `LegacyBacktester.LegacyPnlRoundingError` | backtester.py:203-207 | rounding to whole contracts moves the profit by at most half the reciprocal price move |
| `LegacyBacktester.LegacySize` | backtester.py:209-212 | the size times the price distance to the stop is the entry times the risked fraction of the balance |
| `LegacyBacktester.LegacyLossAtStop` | backtester.py:209-212 | with the stop on the losing side, the unrounded position loses the risked amount scaled by entry over stop, not the risked amount itself |
| `LegacyBacktester.LegacyFee` | backtester.py:162-169 | no fee when fees are off or the mode is unknown; every mode but maker-maker costs, maker-maker earns |
| `LegacyBacktester.LegacyFeeIsUndividedFillFees` | backtester.py:162-169 | the maker-taker fee equals the current account's taker and maker fills multiplied back by the price |
| `LegacyBacktester.ClosePosition` | backtester.py:155-201 | completes iff entry, price and balance are non-zero; then the trade with exit, close time and a result carrying the `stopped` argument is appended, the live slot empties, the balance moves by the rounded-contract profit plus the fee, and the outcome is counted and flagged |
| `LegacyBacktester.Open` | backtester.py:39-59 | the day's trade count rises by one, and nothing else is counted without a live trade; a live trade is first closed at the new price, not as a stop, and appended to the history, realising the rounded-contract profit plus the fee and moving the balance by it; then the live slot gets the trade `NewLegacyTrade` builds from the balance that close left; without a live trade it completes iff no truthy stop equals the price |
| `LegacyBacktester.Install` | backtester.py:47-59 | raises ZeroDivisionError without change iff a truthy stop equals the price; otherwise only the live trade changes |
| `LegacyBacktester.NewLegacyTrade` | backtester.py:47-59 | the new trade carries the arguments, with the stop as its initial stop; with a truthy stop its size times the price distance to the stop is the entry times the risked fraction of the balance, otherwise its size is that fraction |
| `LegacyBacktester.OpenReplacesLiveTrade` | backtester.py:39-59 | opening over a live trade leaves exactly one live trade, the old one closed in the history |
| `LegacyBacktester.Close` | backtester.py:102-107 | without a live trade nothing changes; otherwise the trade is closed at the price and not marked stopped, completing iff entry, price and balance are non-zero; a completed close realises the rounded-contract profit plus the fee and moves the balance by it |
| `LegacyBacktester.TightenStop` | backtester.py:109-114 | the same monotone ratchet as the current account, TypeError for a missing stop |
| `LegacyBacktester.Update` | backtester.py:117-152 | the same rollover and flag clearing; nothing more without a live trade or with a falsy stop; a reached stop closes at the stop marked stopped; otherwise a reached take-profit closes there not stopped; otherwise only the rollover, last bar date and cleared flags change; a fill realises the rounded-contract profit plus the fee at its exit, moves the balance by it, counts its outcome on top of the rolled-over counters and sets the closed and outcome flags over the cleared ones; a missing take-profit raises TypeError |
| `LegacyBacktester.GetResult` | backtester.py:61-71 | as the current account's report, without a drawdown |
| `LegacyBacktester.LastTrade` | backtester.py:73-74 | the last closed trade, present iff the history is non-empty |
| `LegacyBacktester.LastTradeAfterOpen` | backtester.py:39-59 | opening over a live trade makes that trade, exited at the new price at the open's time, the last trade; an open on a flat account leaves the last trade as it was |
| `Engine.GoShortScan` | src/engine/engine.py:25-28 | the `go_short` scan survives iff no indicator is `None` or true, that is each is false or NaN |
| `Engine.CheckSignal` | src/engine/engine.py:21-30 | long iff every indicator is truthy (true or NaN) and the open is above the daily open; short iff not long, every indicator is false or NaN and the open is below |
| `Engine.CheckSignalBlocked` | src/engine/engine.py:21-30 | a `None` indicator, or an open equal to the daily open, gives no signal |
| `Engine.NaNPassesBothScans` | src/engine/engine.py:21-30 | a NaN indicator blocks neither side: with only NaN indicators the open against the daily open alone picks the side, and a NaN column never changes the signal of the others |
| `Engine.CheckTime` | src/engine/engine.py:32-35 | a bar may trade iff its UTC hour is not listed; its properties are stated by `Engine.CheckTimeByHour` |
| `Engine.CheckTimeByHour` | src/engine/engine.py:32-35 | a bar is blocked iff some listed hour equals its hour; the same bar a day later is treated alike; hours outside 0..23 never block |
| `Engine.RiskGate` | src/engine/engine.py:37-38 | trading is allowed with no win today, at most three losses today and no live trade; its behaviour over a day is stated by `Backtester.RiskGateAfterClose` and `Backtester.GateReopensOnNewDay` |
| `Engine.Htf1h` | src/engine/engine.py:55-56 | the hour bucket is at or before the timestamp, less than an hour before it, at minute 0, with the same seconds |
| `Engine.Htf15m` | src/engine/engine.py:58-59 | the quarter-hour bucket is at or before the timestamp, less than 15 minutes before it, at the last multiple of 15 minutes |
| `Engine.BucketsNest` | src/engine/engine.py:55-59 | both bucketings are idempotent, and a quarter-hour bucket lies in the bar's hour bucket |
| `Engine.LatestDayOpen` | src/engine/engine.py:67 | a row's daily open, when present, is the open of some row at or before it that starts a day, and it is present whenever the first row starts a day |
| `Engine.LatestDayOpenSpec` | src/engine/engine.py:67 | a row's daily open exists iff some row at or before it starts a day, and is the open of the last such row |
| `Engine.ForwardFillDailyOpen` | src/engine/engine.py:67 | the filled column has one entry per row, each the latest day-start open at or before that row |
| `Backtester.BracketsStraddleEntry` | src/engine/backtester.py:64-77 | with an ATR above one cent the rounded stop and take-profit lie on opposite sides of the entry, stop below for a long and above for a short |
| `Backtester.Enter` | src/engine/backtester.py:64-77 | an entry is at the row's open with the stop and take-profit of `Backtester.Brackets` (one ATR against the position and 0.95 ATR with it, each rounded to cents, as at lines 65-66 and 72-73) and the strategy's risk |
| `Backtester.Process` | src/engine/backtester.py:58-84 | without the risk gate and the time filter, or without a signal, the row only updates the account; with both gates and a signal the row enters on that side and, if the entry completes, updates the entered account with the same row, while a raising entry skips the update; a completed row sets the last bar date; the history only grows |
| `Backtester.UpdateExtendsHistory` | src/account/test_account.py:156-192 | the per-bar update never removes a trade from the history |
| `Backtester.ProcessKeepsSound` | src/engine/backtester.py:58-84 | processing a row keeps the account invariant, whatever the row raises |
| `Backtester.SameBarStopOut` | src/engine/backtester.py:58-84 | a long entered on a bar whose low reaches its stop is stopped out on that bar, at the stop |
| `Backtester.UpdateKeepsEntry` | src/account/test_account.py:156-192 | a live trade that survives the per-bar update, unfilled or with a close that raised, keeps its entry, size, seeded profit and open time |
| `Backtester.ProcessLiveTrade` | src/engine/backtester.py:58-80 | on an account without a trade, a trade left live after a row was opened by that row: both gates passed, the row signalled, the entry completed, and the live trade has the entry's size, seed and open time |
| `Backtester.ProcessKlineAsWritten` | src/engine/backtester.py:58-84 | `process_kline` as written: a trade it opens on a flat account records no open time and, on a row with a non-zero timestamp at a positive price, carries the maker rebate as its seed; the history only grows |
| `Backtester.ProcessKline` | src/engine/backtester.py:58-84 | `process_kline` with the intended call: a trade it opens on a flat account records the row's time and carries the taker fee as its seed; the history only grows |
| `Backtester.ProcessKlineWith` | src/engine/backtester.py:58-84 | the row step of the replay, as written or intended; the history only grows |
| `Backtester.ExecuteStrategy` | src/engine/backtester.py:86-87 | the rows processed in table order with either binding of the `open` call; the history of closed trades only grows |
| `Backtester.ExecuteStrategyConcat` | src/engine/backtester.py:86-87 | rows are processed one after another, with the call as written or intended: replaying two tables in turn is replaying their concatenation |
| `Backtester.ExecuteStrategyInvariant` | src/engine/backtester.py:86-87 | a replay, with the call as written or intended, keeps the account invariant and never loses a closed trade |
| `Backtester.RiskGateAfterClose` | src/engine/engine.py:37-38 | after a completed close a win shuts the gate, a fourth loss shuts it, and any other outcome with no earlier win and at most two earlier losses leaves it open |
| `Backtester.GateReopensOnNewDay` | src/engine/engine.py:37-38 | a win or a fourth loss closes the gate for the day, and the first bar of a new day reopens it when no trade is live |
| `Backtester.AsWrittenSeedsMakerRebate` | src/engine/backtester.py:70 | as written, every long entered on a row with a non-zero timestamp is seeded with the maker rebate and records no open time |
| `Backtester.AsWrittenExample` | src/engine/backtester.py:64-80 | on a concrete row the call as written credits a 0.0006125 rebate without an open time, where the intended call charges 0.0018375 and records the time |
| `Backtester.IntendedSeedsTakerFee` | src/engine/backtester.py:64-77 | with the intended call every entry records the row's time and is seeded with the taker fee |
| `Skalpit.SkalpitRiskGate` | skalpit.py:89-90 | trading is allowed with at most one win today, at most three losses today and no live trade; compared with the engine's gate by `Skalpit.SkalpitGateLooserThanEngine` |
| `Skalpit.SkalpitGateLooserThanEngine` | skalpit.py:89-90 | the scalper's gate holds whenever the engine's does, and also after exactly one win |
| `Skalpit.SkalpitSignal` | skalpit.py:93-102 | long iff the overlap holds and the price is above the daily open, short iff it does not and the price is below, none otherwise |
| `Skalpit.SkalpitBrackets` | skalpit.py:62-73 | the stop lies within a rounding step of the open less, or plus, the smaller of the ATR and the hour's low; the take-profit within a rounding step of the open plus, or less, 0.95 ATR; a short uses the ATR rounded first |
| `Skalpit.SkalpitEnter` | skalpit.py:62-73 | a missing ATR or hourly low raises KeyError without change; otherwise the legacy trade carries the open, the minute, the risk and the brackets |
| `Skalpit.SkalpitMinute` | skalpit.py:51-82 | a missing minute raises KeyError without change; the hour bucket and daily open are refreshed at hour and day starts before the signal; with the gate closed the minute only updates the account; with it open, a missing hour in the overlap raises KeyError without change, no signal leads to the update alone, and a signal leads to the entry on the refreshed hour bucket and daily open followed by the update of the entered account, or to the entry's exception with no update; the history only grows |
| `Skalpit.LegacyOpenKeepsHistory` | backtester.py:39-59 | the legacy `open` never removes a trade from the history |
| `Skalpit.LegacyUpdateExtendsHistory` | backtester.py:117-152 | the legacy `update` never removes a trade from the history |
| `Skalpit.VisitsSpec` | skalpit.py:49-82 | the loop visits exactly the minutes start + 60k below the end, in order |
| `Skalpit.Run` | skalpit.py:49-82 | the loop as a fold of the minute body over the visited minutes, each exception swallowed; `Skalpit.ExecuteSkalpit` proves the while loop computes it and `Skalpit.RunExtendsHistory` that it never loses a trade |
| `Skalpit.RunExtendsHistory` | skalpit.py:49-82 | the account's history only grows over the loop |
| `Skalpit.ExecuteSkalpit` | skalpit.py:40-82 | a missing start minute fails the run with KeyError; otherwise the loop's result is the fold of the minute body over the visited minutes from the start state, and the history only grows |

## Left out

- Floating point: numbers are exact reals, so IEEE-754 rounding, overflow, infinities and NaN arithmetic are not modelled. A NaN daily open before the first day start is modelled as a missing value that compares false both ways. A `None` indicator is `Unknown`; a NaN indicator, which the left join at src/engine/engine.py:71 leaves where a higher-timeframe row is missing, is `NaN`, truthy for `all` and not cleared by the `go_short` scan, so `Engine.CheckSignal` can enter on it as the source does (`Engine.NaNPassesBothScans`). Other NaN-valued arithmetic is not modelled.
- Local time: `datetime.fromtimestamp` uses the machine's time zone; the model fixes UTC. Calendar dates are compared by day number, not through a civil-calendar conversion.
- `takeprofits` in both accounts: it appends to an attribute of a dict, which raises AttributeError after the size and balance were already changed. It is not a working partial exit and is not modelled.
- String output: the formatting of `getResult` (two decimals and a percent sign), logging, `print` and tracebacks are left out. The report carries the numbers.
- `int()` on interval prefixes covers ASCII whitespace, one sign, decimal digits and single underscores between digits. Non-ASCII digits and whitespace are not modelled.
- Trade sides other than long and short: the source treats any other string as a long in the profit and as neither side in `update`. The model has only the two sides.
- backtester.py imports `sameday` and `percent` from a root `utils` module, which is not part of this model; `LegacyBacktester` uses those of src/utils/utils.py in their place.
- The engine and driver constructors, data fetching and caching, the pandas `apply`/`join` mechanics, indicator computation, charting and the exchange clients are I/O or library glue; the joined rows and the lookup tables are inputs.
- The strategy's `tp-atr`/`sl-atr` settings are not read by the driver, which uses 1 and 0.95 ATR; so does the model.
- `Skalpit.SkalpitBrackets` states the brackets only up to the 0.005 rounding error of `round(x, 2)`. It does not give their exact rounded values.
- `Backtester.BracketsStraddleEntry` requires an ATR above one cent, because rounding to cents can otherwise put a bracket on the entry price.
- `LegacyBacktester.Contracts` states only the rounding bound, not which neighbour a tie picks; `PyRuntime.RoundHalfEven` states that.
- `TestAccountProps.ExampleCloseWin` states the profit within the eight-decimal rounding interval of 0.04680221 rather than the exact rational value.

## Findings

| source | as written | input that shows it | evidently intended | confidence | as-written member | corrected member |
|---|---|---|---|---|---|---|
| src/engine/backtester.py:70 | the driver passes the row's timestamp as the sixth positional argument of `open`, which binds it to `is_maker`; `timestamp` stays None | a long signal on the row at 1613779200 with open 50000 and ATR 1000 on a fresh account: the entry is credited a 0.0006125 maker rebate and records no open time | the row's timestamp as the open time, with the default taker entry fee of 0.0018375 | not executed | `Backtester.AsWrittenExample` | `Backtester.IntendedSeedsTakerFee` |
