/** The backtesting account: opening a position, closing it (realising the
    inverse-contract profit and the fees), ratcheting its stop, the per-bar
    update that resets the daily counters and fills the stop or the
    take-profit, and the summary report.

    Every operation returns the account it leaves behind together with the
    exception it raised, if any; Python mutates the account in place, so an
    exception leaves behind whatever was already changed. */
module TestAccount {
  import opened Wrappers
  import opened PyRuntime
  import opened Utils
  import opened Accounts

  /** The profit closing trade `t` at `price` realises: its entry seed, the
      inverse-contract profit, and the fee of the closing fill. */
  function Realized(t: Trade, price: real, isMaker: bool): real
    requires t.entry != 0.0 && price != 0.0
  {
    t.pnl + InversePnl(t.side, t.entry, price, t.size) + FillFee(t.size, price, isMaker)
  }

  /** `open`: counts the trade for the day, sizes it (by stop risk when a
      stop is given, otherwise `risk` percent of the balance), seeds its
      profit with the entry fill's fee and installs it, overwriting any
      live trade without closing it. A zero price, or a stop equal to the
      price, raises ZeroDivisionError after the count. */
  function Open(a: Account, side: Side, price: real, stop: Option<real> := None, tp: Option<real> := None,
                risk: real := 5.0, isMaker: bool := false, ts: Option<int> := None): (s: Step<Account>)
    ensures s.state.tally == a.tally.CountOpen()
    ensures s.state.(trade := a.trade, tally := a.tally) == a
    ensures s.Ok() <==> price != 0.0 && !(Truthy(stop) && stop.value == price)
    ensures !s.Ok() ==> s.raised == Some(ZeroDivisionError) && s.state.trade == a.trade
    ensures s.Ok() ==> s.state.trade == Some(NewTrade(a.balance, side, price, stop, tp, risk, isMaker, ts))
  {
    var counted := a.(tally := a.tally.CountOpen());
    if price == 0.0 || (Truthy(stop) && stop.value == price) then
      Step(counted, Some(ZeroDivisionError))
    else
      Step(counted.(trade := Some(NewTrade(a.balance, side, price, stop, tp, risk, isMaker, ts))), None)
  }

  /** The trade `open` installs: sized against `balance` and seeded with
      the fee of the entry fill. */
  function NewTrade(balance: real, side: Side, price: real, stop: Option<real>, tp: Option<real>,
                    risk: real, isMaker: bool, ts: Option<int>): (t: Trade)
    requires price != 0.0 && !(Truthy(stop) && stop.value == price)
    ensures t == Trade(side, price, stop, tp, risk, t.size, t.pnl, ts, None, None, None, stop)
    ensures Truthy(stop) ==> t.size * Abs(1.0 / price - 1.0 / stop.value) == balance * (risk / 100.0)
    ensures !Truthy(stop) ==> t.size == balance * (risk / 100.0)
    ensures t.pnl == (if isMaker then t.size / price * MakerFee else -(t.size / price * TakerFee))
  {
    var size := if Truthy(stop) then SizeByStopRisk(balance, risk, price, stop) else balance * (risk / 100.0);
    Trade(side, price, stop, tp, risk, size, FillFee(size, price, isMaker), ts, None, None, None, stop)
  }

  /** `_close_position`: realises the trade's profit at `price`, moves the
      balance by it, classifies the trade, updates the maximum balance, the
      drawdown and the counters, records the result and moves the trade to
      the history. The result's `stopped` is the account's flag, which
      `update` sets before a stop fill. ZeroDivisionError is raised for a
      zero entry or exit (before anything but the trade's exit and close
      time changed), for a zero maximum balance, and for a zero balance
      before the close (after the counters were updated). */
  function ClosePosition(a: Account, price: real, isMaker: bool, ts: Option<int>): (s: Step<Account>)
    requires a.trade.Some?
    ensures a.trade.value.entry != 0.0 && price != 0.0 && a.balance != 0.0 && a.maxBalance > 0.0 ==> s.Ok()
    ensures !s.Ok() ==> s.raised == Some(ZeroDivisionError) && s.state.trades == a.trades
    ensures s.Ok() ==> a.trade.value.entry != 0.0 && price != 0.0 && a.balance != 0.0 && s.state.maxBalance != 0.0
    ensures s.Ok() ==> |s.state.trades| == |a.trades| + 1
                       && s.state.trades[|a.trades|].result.Some?
    ensures s.Ok() ==>
      var t := s.state.trades[|a.trades|];
      var profit := t.result.value.profit;
      && s.state.trade == None
      && |s.state.trades| == |a.trades| + 1 && s.state.trades[..|a.trades|] == a.trades
      && t.(closeTs := a.trade.value.closeTs, exit := a.trade.value.exit, result := a.trade.value.result) == a.trade.value
      && t.closeTs == ts && t.exit == Some(price)
      && t.result.value == TradeResult(a.flags.stopped, price, profit, Percent(a.balance, s.state.balance),
                                       a.balance, s.state.balance)
      && profit == Realized(a.trade.value, price, isMaker)
      && s.state.balance == a.balance + profit
      && s.state.tally == a.tally.Record(Classify(profit))
      && s.state.flags == CloseFlags(a.flags, Classify(profit))
      && s.state.balance <= s.state.maxBalance && a.maxBalance <= s.state.maxBalance
      && (s.state.maxBalance == s.state.balance || s.state.maxBalance == a.maxBalance)
      && s.state.maxDrawdown == Min(a.maxDrawdown, Percent(s.state.maxBalance, s.state.balance))
      && s.state.startBalance == a.startBalance && s.state.lastBarDate == a.lastBarDate
  {
    var t := a.trade.value.(closeTs := ts, exit := Some(price));
    var marked := a.(trade := Some(t));
    if t.entry == 0.0 || price == 0.0 then
      Step(marked, Some(ZeroDivisionError))
    else
      var pnl := Realized(t, price, isMaker);
      var startBalance := a.balance;
      var balance := a.balance + pnl;
      var outcome := Classify(pnl);
      var maxBalance := Max(balance, a.maxBalance);
      var settled := marked.(balance := balance, flags := CloseFlags(a.flags, outcome), maxBalance := maxBalance);
      if maxBalance == 0.0 then
        Step(settled, Some(ZeroDivisionError))
      else
        var counted := settled.(maxDrawdown := Min(a.maxDrawdown, Percent(maxBalance, balance)),
                                tally := a.tally.Record(outcome));
        if startBalance == 0.0 then
          Step(counted, Some(ZeroDivisionError))
        else
          var result := TradeResult(a.flags.stopped, price, pnl, Percent(startBalance, balance), startBalance, balance);
          Step(counted.(trades := a.trades + [t.(result := Some(result))], trade := None), None)
  }

  /** `close`: without a live trade nothing changes; otherwise the trade is
      closed at `price`, as a maker fill unless told otherwise. */
  function Close(a: Account, price: real, isMaker: bool := true, ts: Option<int> := None): (s: Step<Account>)
    ensures a.trade.None? ==> s == Step(a, None)
    ensures a.trade.Some? && a.trade.value.entry != 0.0 && price != 0.0 && a.balance != 0.0 && a.maxBalance > 0.0 ==>
      && s.Ok() && s.state.trade.None? && |s.state.trades| == |a.trades| + 1
      && s.state.trades[|a.trades|].result.Some?
      && s.state.trades[|a.trades|].result.value.exit == price
      && s.state.trades[|a.trades|].result.value.profit == Realized(a.trade.value, price, isMaker)
    ensures s.Ok() && a.trade.Some? && |s.state.trades| == |a.trades| + 1 && s.state.trades[|a.trades|].result.Some? ==>
      var profit := s.state.trades[|a.trades|].result.value.profit;
      && s.state.balance == a.balance + profit
      && s.state.tally == a.tally.Record(Classify(profit))
      && s.state.maxBalance == Max(s.state.balance, a.maxBalance) && s.state.maxBalance != 0.0
      && s.state.maxDrawdown == Min(a.maxDrawdown, Percent(s.state.maxBalance, s.state.balance))
  {
    if a.trade.None? then Step(a, None) else ClosePosition(a, price, isMaker, ts)
  }

  /** `tightenstop`: moves a live trade's stop to the more favourable of
      the stop and `price` (up for a long, down for a short), never
      against the position. Without a live trade nothing changes; a live
      trade without a stop raises TypeError. */
  function TightenStop(a: Account, price: real): (s: Step<Account>)
    ensures a.trade.None? ==> s == Step(a, None)
    ensures a.trade.Some? && a.trade.value.stop.None? ==> s == Step(a, Some(TypeError))
    ensures a.trade.Some? && a.trade.value.stop.Some? ==>
      var t := a.trade.value;
      && s.Ok() && s.state.trade.Some? && s.state.trade.value.stop.Some?
      && s.state == a.(trade := Some(t.(stop := s.state.trade.value.stop)))
      && (t.side == Long ==> t.stop.value <= s.state.trade.value.stop.value)
      && (t.side == Short ==> s.state.trade.value.stop.value <= t.stop.value)
      && (s.state.trade.value.stop.value == t.stop.value || s.state.trade.value.stop.value == price)
  {
    match a.trade
    case None => Step(a, None)
    case Some(t) =>
      match Ratchet(t.side, t.stop, price)
      case None => Step(a, Some(TypeError))
      case Some(stop) => Step(a.(trade := Some(t.(stop := Some(stop)))), None)
  }

  /** `update`, run once per bar: a day rollover zeroes the daily counters,
      the bar's time becomes the last bar date, the flags are cleared; then
      a live trade is closed at its stop when the bar reaches it (a taker
      fill, flagged as stopped), and otherwise at its take-profit when the
      bar reaches that (a maker fill). Comparing the bar with a missing
      stop or take-profit raises TypeError. */
  function Update(a: Account, ts: int, bar: Bar): (s: Step<Account>)
    ensures s.state.lastBarDate == Some(ts)
    ensures a.trade.None? ==>
      s == Step(a.(tally := Rollover(a.tally, a.lastBarDate, ts), lastBarDate := Some(ts), flags := Cleared), None)
    ensures a.trade.Some? && a.trade.value.stop.None? ==> s.raised == Some(TypeError)
    ensures a.trade.Some? && a.trade.value.stop.Some? && StopHit(a.trade.value.side, bar, a.trade.value.stop.value) && s.Ok() ==>
      var t := a.trade.value;
      && s.state.trade.None? && |s.state.trades| == |a.trades| + 1
      && t.entry != 0.0 && t.stop.value != 0.0 && s.state.trades[|a.trades|].result.Some?
      && s.state.flags.stopped && s.state.trades[|a.trades|].result.value.stopped
      && s.state.trades[|a.trades|].result.value.exit == t.stop.value
      && s.state.trades[|a.trades|].result.value.profit == Realized(t, t.stop.value, false)
    ensures a.trade.Some? && a.trade.value.stop.Some? && !StopHit(a.trade.value.side, bar, a.trade.value.stop.value) ==>
      var t := a.trade.value;
      && (t.tp.None? ==> s.raised == Some(TypeError))
      && (t.tp.Some? && TargetHit(t.side, bar, t.tp.value) && s.Ok() ==>
            && s.state.trade.None? && |s.state.trades| == |a.trades| + 1
            && t.entry != 0.0 && t.tp.value != 0.0 && s.state.trades[|a.trades|].result.Some?
            && !s.state.flags.stopped && !s.state.trades[|a.trades|].result.value.stopped
            && s.state.trades[|a.trades|].result.value.exit == t.tp.value
            && s.state.trades[|a.trades|].result.value.profit == Realized(t, t.tp.value, true))
      && (t.tp.Some? && !TargetHit(t.side, bar, t.tp.value) ==>
            s == Step(a.(tally := Rollover(a.tally, a.lastBarDate, ts), lastBarDate := Some(ts), flags := Cleared), None))
    ensures s.Ok() && a.trade.Some? && |s.state.trades| == |a.trades| + 1 && s.state.trades[|a.trades|].result.Some? ==>
      var profit := s.state.trades[|a.trades|].result.value.profit;
      && s.state.balance == a.balance + profit
      && s.state.tally == Rollover(a.tally, a.lastBarDate, ts).Record(Classify(profit))
      && s.state.maxBalance == Max(s.state.balance, a.maxBalance) && s.state.maxBalance != 0.0
      && s.state.maxDrawdown == Min(a.maxDrawdown, Percent(s.state.maxBalance, s.state.balance))
  {
    var a1 := a.(tally := Rollover(a.tally, a.lastBarDate, ts), lastBarDate := Some(ts), flags := Cleared);
    match a1.trade
    case None => Step(a1, None)
    case Some(t) =>
      match t.stop
      case None => Step(a1, Some(TypeError))
      case Some(stop) =>
        if StopHit(t.side, bar, stop) then
          ClosePosition(a1.(flags := a1.flags.(stopped := true)), stop, false, Some(ts))
        else
          match t.tp
          case None => Step(a1, Some(TypeError))
          case Some(tp) =>
            if TargetHit(t.side, bar, tp) then ClosePosition(a1, tp, true, Some(ts)) else Step(a1, None)
  }

  /** The summary `getResult` reports; `maxDrawdown` is absent for the
      account variant that does not track it. */
  datatype Summary = Summary(
    trades: nat,
    strikeRate: real,
    balance: real,
    growth: real,
    maxDrawdown: Option<real>,
    won: nat,
    lost: nat,
    even: nat)

  /** `getResult`: trade count, strike rate (won trades per hundred
      trades), balance, growth from the start balance, drawdown and the
      totals. With no trades the strike rate divides by zero, as does the
      growth with a zero start balance. */
  function GetResult(a: Account): (r: Result<Summary, PyError>)
    ensures r.Failure? <==> |a.trades| == 0 || a.startBalance == 0.0
    ensures r.Failure? ==> r.error == ZeroDivisionError
    ensures r.Success? ==>
      && r.value.trades == |a.trades|
      && r.value.strikeRate * (|a.trades| as real) == a.tally.totalWon as real * 100.0
      && a.startBalance + a.startBalance * r.value.growth / 100.0 == a.balance
      && r.value.balance == a.balance && r.value.maxDrawdown == Some(a.maxDrawdown)
      && r.value.won == a.tally.totalWon && r.value.lost == a.tally.totalLost && r.value.even == a.tally.totalEven
  {
    if |a.trades| == 0 || a.startBalance == 0.0 then Failure(ZeroDivisionError)
    else
      Success(Summary(|a.trades|, a.tally.totalWon as real / |a.trades| as real * 100.0, a.balance,
                      Percent(a.startBalance, a.balance), Some(a.maxDrawdown),
                      a.tally.totalWon, a.tally.totalLost, a.tally.totalEven))
  }

  /** `get_last_trade`: the most recently closed trade, if any. */
  function LastTrade(a: Account): (r: Option<Trade>)
    ensures r.Some? <==> |a.trades| > 0
    ensures r.Some? ==> r.value == a.trades[|a.trades| - 1]
  {
    if |a.trades| > 0 then Some(a.trades[|a.trades| - 1]) else None
  }

  /** After a completed close, the last trade is the one just closed: the
      live trade with its exit at the closing price and its result set. A
      close that raises leaves the last trade as it was. */
  lemma LastTradeAfterClose(a: Account, price: real, isMaker: bool, ts: Option<int>)
    requires a.trade.Some?
    ensures var s := ClosePosition(a, price, isMaker, ts);
      !s.Ok() ==> LastTrade(s.state) == LastTrade(a)
    ensures var s := ClosePosition(a, price, isMaker, ts);
      s.Ok() ==>
      && LastTrade(s.state) == Some(s.state.trades[|a.trades|])
      && LastTrade(s.state).value.exit == Some(price)
      && LastTrade(s.state).value.closeTs == ts
      && LastTrade(s.state).value.result.Some?
      && LastTrade(s.state).value.result.value.profit == Realized(a.trade.value, price, isMaker)
  {
  }
}
