/** The legacy account at the repository root. It shares the counters, the
    flags and the day rollover with the current account but differs from
    it in five places: opening force-closes a live trade first, sizing is
    linear in the stop distance, the profit rounds the position to whole
    contracts, the fee is charged on the size without dividing by the
    price, and the per-bar update does nothing for a trade without a
    stop. There is no high-water mark and no drawdown. The `sameday` and
    `percent` it imports are taken to be those of the utilities module. */
module LegacyBacktester {
  import opened Wrappers
  import opened PyRuntime
  import opened Utils
  import opened Accounts
  import TestAccount

  /** The `mode` string of the fee table; any other string charges no
      fee. */
  datatype FeeMode = TakerBoth | MakerBoth | MakerTaker | OtherMode

  datatype FeeConfig = FeeConfig(on: bool, mode: FeeMode)

  /** The fee table the constructor builds: fees on, one maker and one
      taker fill per trade. */
  const DefaultFees := FeeConfig(true, MakerTaker)

  /** A legacy position; it has no profit seed. */
  datatype LegacyTrade = LegacyTrade(
    side: Side,
    entry: real,
    stop: Option<real>,
    tp: Option<real>,
    risk: real,
    size: real,
    openTs: int,
    closeTs: Option<int>,
    exit: Option<real>,
    result: Option<TradeResult>,
    initialStop: Option<real>)

  datatype LegacyAccount = LegacyAccount(
    fees: FeeConfig,
    balance: real,
    startBalance: real,
    trade: Option<LegacyTrade>,
    trades: seq<LegacyTrade>,
    tally: Tally,
    lastBarDate: Option<int>,
    flags: Flags)

  /** The state `Backtester.__init__` builds: a balance of 1. */
  function NewLegacyAccount(): (a: LegacyAccount)
    ensures a.balance == a.startBalance == 1.0 && a.fees == DefaultFees
    ensures a.trade == None && a.trades == [] && a.lastBarDate == None
    ensures a.tally == ZeroTally && a.flags == Cleared
  {
    LegacyAccount(DefaultFees, 1.0, 1.0, None, [], ZeroTally, None, Cleared)
  }

  /** The position in whole contracts: `size * entry` rounded half to
      even. */
  function Contracts(size: real, entry: real): (c: int)
    ensures -0.5 <= c as real - size * entry <= 0.5
  {
    RoundHalfEven(size * entry)
  }

  /** `_calc_pnl_xbt` of the legacy account: the inverse-contract profit
      of the rounded contract count. */
  function LegacyPnl(side: Side, entry: real, exit: real, size: real): (r: real)
    requires entry != 0.0 && exit != 0.0
    ensures r == InversePnl(side, entry, exit, Contracts(size, entry) as real)
  {
    var contracts := Contracts(size, entry) as real;
    var exit1 := 1.0 / exit;
    var entry1 := 1.0 / entry;
    if side == Short then (exit1 - entry1) * contracts else (entry1 - exit1) * contracts
  }

  /** Rounding to whole contracts moves the legacy profit by at most half
      a contract's worth of the reciprocal price move. */
  lemma LegacyPnlRoundingError(side: Side, entry: real, exit: real, size: real)
    requires entry != 0.0 && exit != 0.0
    ensures Abs(LegacyPnl(side, entry, exit, size) - InversePnl(side, entry, exit, size * entry))
         <= 0.5 * Abs(1.0 / entry - 1.0 / exit)
  {
    var c := Contracts(size, entry) as real;
    var d := 1.0 / entry - 1.0 / exit;
    var e := c - size * entry;
    assert LegacyPnl(side, entry, exit, size) - InversePnl(side, entry, exit, size * entry)
        == (if side == Short then -d * e else d * e);
    BoundedProduct(d, e);
  }

  lemma BoundedProduct(d: real, e: real)
    requires -0.5 <= e <= 0.5
    ensures Abs(d * e) <= 0.5 * Abs(d) && Abs(-d * e) <= 0.5 * Abs(d)
  {
    if d >= 0.0 {
      assert -0.5 * d <= d * e <= 0.5 * d;
    } else {
      assert 0.5 * d <= d * e <= -0.5 * d;
    }
  }

  /** `_size_by_stop_risk` of the legacy account: `risk` percent of the
      balance spread over the price distance to the stop, scaled by the
      entry. A stop equal to the entry divides by zero. */
  function LegacySize(balance: real, risk: real, entry: real, stop: real): (r: real)
    requires entry != stop
    ensures r * Abs(entry - stop) == entry * (balance * (risk / 100.0))
  {
    var sizeRisk := balance * (risk / 100.0);
    var range := Abs(entry - stop);
    entry * (sizeRisk / range)
  }

  /** The linear sizing does not fix the inverse loss at the stop: closing
      `size * entry` contracts at the stop loses the risked amount scaled
      by `entry / stop`. */
  lemma LegacyLossAtStop(side: Side, balance: real, risk: real, entry: real, stop: real)
    requires 0.0 < stop && 0.0 < entry
    requires if side == Long then stop < entry else entry < stop
    ensures var size := LegacySize(balance, risk, entry, stop);
      InversePnl(side, entry, stop, size * entry) == -(entry / stop) * (balance * (risk / 100.0))
  {
    var sizeRisk := balance * (risk / 100.0);
    var size := LegacySize(balance, risk, entry, stop);
    var range := Abs(entry - stop);
    assert size == entry * (sizeRisk / range);
    if side == Long {
      assert range == entry - stop;
      assert 1.0 / entry - 1.0 / stop == (stop - entry) / (entry * stop);
      assert (1.0 / entry - 1.0 / stop) * (size * entry) == (stop - entry) / (entry * stop) * (entry * entry * (sizeRisk / range));
    } else {
      assert range == stop - entry;
      assert 1.0 / stop - 1.0 / entry == (entry - stop) / (entry * stop);
      assert (1.0 / stop - 1.0 / entry) * (size * entry) == (entry - stop) / (entry * stop) * (entry * entry * (sizeRisk / range));
    }
  }

  /** The fee a legacy close adds to the profit, on the size alone. */
  function LegacyFee(fees: FeeConfig, size: real): (r: real)
    ensures !fees.on || fees.mode == OtherMode ==> r == 0.0
    ensures 0.0 <= size && fees.on && fees.mode != MakerBoth ==> r <= 0.0
    ensures 0.0 <= size && fees.on && fees.mode == MakerBoth ==> r >= 0.0
  {
    if !fees.on then 0.0
    else
      match fees.mode
      case TakerBoth => -(size * TakerFee * 2.0)
      case MakerBoth => size * MakerFee * 2.0
      case MakerTaker => -(size * TakerFee) + size * MakerFee
      case OtherMode => 0.0
  }

  /** The configured legacy fee is the current account's taker entry fee
      plus maker exit fee multiplied back by the price: the legacy close
      never divides by the price. */
  lemma LegacyFeeIsUndividedFillFees(size: real, price: real)
    requires price != 0.0
    ensures LegacyFee(DefaultFees, size) == price * (FillFee(size, price, false) + FillFee(size, price, true))
  {
    assert price * (size / price) == size;
  }

  /** `_close_position` of the legacy account: the exit and close time are
      set, the profit is the rounded-contract profit plus the fee, the
      balance moves by it, `stopped` is set from the argument, the
      outcome is counted, the result is recorded and the trade moves to
      the history. A zero entry or exit raises ZeroDivisionError before
      the balance moves; a zero balance raises it after the counters
      moved. */
  function ClosePosition(a: LegacyAccount, price: real, ts: int, stopped: bool): (s: Step<LegacyAccount>)
    requires a.trade.Some?
    ensures s.Ok() <==> a.trade.value.entry != 0.0 && price != 0.0 && a.balance != 0.0
    ensures !s.Ok() ==> s.raised == Some(ZeroDivisionError) && s.state.trades == a.trades
    ensures s.state.tally.dailyTrades == a.tally.dailyTrades
    ensures s.Ok() ==>
      var t := a.trade.value;
      var profit := LegacyPnl(t.side, t.entry, price, t.size) + LegacyFee(a.fees, t.size);
      && s.state.trade == None
      && s.state.trades == a.trades + [t.(closeTs := Some(ts), exit := Some(price), result := Some(
           TradeResult(stopped, price, profit, Percent(a.balance, a.balance + profit), a.balance, a.balance + profit)))]
      && s.state.balance == a.balance + profit
      && s.state.tally == a.tally.Record(Classify(profit))
      && s.state.flags == CloseFlags(a.flags.(stopped := stopped), Classify(profit))
      && s.state.startBalance == a.startBalance && s.state.fees == a.fees && s.state.lastBarDate == a.lastBarDate
  {
    var t := a.trade.value.(closeTs := Some(ts), exit := Some(price));
    var marked := a.(trade := Some(t));
    if t.entry == 0.0 || price == 0.0 then
      Step(marked, Some(ZeroDivisionError))
    else
      var pnl := LegacyPnl(t.side, t.entry, price, t.size) + LegacyFee(a.fees, t.size);
      var startBalance := a.balance;
      var outcome := Classify(pnl);
      var counted := marked.(balance := a.balance + pnl, flags := CloseFlags(a.flags.(stopped := stopped), outcome),
                             tally := a.tally.Record(outcome));
      if startBalance == 0.0 then
        Step(counted, Some(ZeroDivisionError))
      else
        var result := TradeResult(stopped, price, pnl, Percent(startBalance, counted.balance), startBalance, counted.balance);
        Step(counted.(trades := a.trades + [t.(result := Some(result))], trade := None), None)
  }

  /** The profit the legacy account books for closing `t` at `price`: the
      inverse profit of the rounded contract count plus the fee. */
  function LegacyRealized(fees: FeeConfig, t: LegacyTrade, price: real): real
    requires t.entry != 0.0 && price != 0.0
  {
    LegacyPnl(t.side, t.entry, price, t.size) + LegacyFee(fees, t.size)
  }

  /** `open` of the legacy account: counts the trade for the day, closes a
      live trade at the new price (not as a stop), then sizes and installs
      the new trade against the balance that close left. A stop equal to
      the price raises ZeroDivisionError; so does a forced close that
      raises, and then no new trade is installed. */
  function Open(a: LegacyAccount, side: Side, price: real, stop: Option<real>, tp: Option<real>, risk: real, ts: int)
    : (s: Step<LegacyAccount>)
    ensures s.state.tally.dailyTrades == a.tally.dailyTrades + 1
    ensures a.trade.None? ==> s.state.trades == a.trades && s.state.balance == a.balance
                              && s.state.tally == a.tally.CountOpen()
    ensures a.trade.None? ==> (s.Ok() <==> !(Truthy(stop) && stop.value == price))
    ensures a.trade.Some? && s.Ok() ==>
      && |s.state.trades| == |a.trades| + 1 && s.state.trades[..|a.trades|] == a.trades
      && s.state.trades[|a.trades|].exit == Some(price)
      && s.state.trades[|a.trades|].result.Some?
      && !s.state.trades[|a.trades|].result.value.stopped
    ensures s.Ok() ==> !(Truthy(stop) && stop.value == price)
    ensures s.Ok() ==> s.state.trade == Some(NewLegacyTrade(s.state.balance, side, price, stop, tp, risk, ts))
    ensures a.trade.Some? && s.Ok() ==>
      && a.trade.value.entry != 0.0 && price != 0.0
      && s.state.trades[|a.trades|].result.value.profit == LegacyRealized(a.fees, a.trade.value, price)
      && s.state.balance == a.balance + LegacyRealized(a.fees, a.trade.value, price)
  {
    var counted := a.(tally := a.tally.CountOpen());
    var closed := if counted.trade.Some? then ClosePosition(counted, price, ts, false) else Step(counted, None);
    if !closed.Ok() then closed
    else Install(closed.state, side, price, stop, tp, risk, ts)
  }

  /** The second half of the legacy `open`: size the new trade against
      the current balance and make it the live trade. */
  function Install(b: LegacyAccount, side: Side, price: real, stop: Option<real>, tp: Option<real>, risk: real, ts: int)
    : (s: Step<LegacyAccount>)
    ensures s.Ok() <==> !(Truthy(stop) && stop.value == price)
    ensures !s.Ok() ==> s == Step(b, Some(ZeroDivisionError))
    ensures s.Ok() ==> s.state == b.(trade := Some(NewLegacyTrade(b.balance, side, price, stop, tp, risk, ts)))
  {
    if Truthy(stop) && stop.value == price then
      Step(b, Some(ZeroDivisionError))
    else
      Step(b.(trade := Some(NewLegacyTrade(b.balance, side, price, stop, tp, risk, ts))), None)
  }

  /** The trade the legacy `open` installs: sized linearly against
      `balance` by the price distance to a truthy stop, or as `risk`
      percent of it. */
  function NewLegacyTrade(balance: real, side: Side, price: real, stop: Option<real>, tp: Option<real>,
                          risk: real, ts: int): (t: LegacyTrade)
    requires !(Truthy(stop) && stop.value == price)
    ensures t == LegacyTrade(side, price, stop, tp, risk, t.size, ts, None, None, None, stop)
    ensures Truthy(stop) ==> t.size * Abs(price - stop.value) == price * (balance * (risk / 100.0))
    ensures !Truthy(stop) ==> t.size == balance * (risk / 100.0)
  {
    var size := if Truthy(stop) then LegacySize(balance, risk, price, stop.value) else balance * (risk / 100.0);
    LegacyTrade(side, price, stop, tp, risk, size, ts, None, None, None, stop)
  }

  /** `close` of the legacy account: without a live trade nothing
      changes; otherwise the trade is closed at `price`, not as a stop. */
  function Close(a: LegacyAccount, price: real, ts: int): (s: Step<LegacyAccount>)
    ensures a.trade.None? ==> s == Step(a, None)
    ensures a.trade.Some? && s.Ok() ==>
      && s.state.trade.None? && |s.state.trades| == |a.trades| + 1
      && s.state.trades[|a.trades|].result.Some?
      && !s.state.trades[|a.trades|].result.value.stopped
      && s.state.trades[|a.trades|].result.value.exit == price
    ensures a.trade.Some? ==> (s.Ok() <==> a.trade.value.entry != 0.0 && price != 0.0 && a.balance != 0.0)
    ensures s.Ok() && a.trade.Some? && |s.state.trades| == |a.trades| + 1 && s.state.trades[|a.trades|].result.Some? ==>
      var r := s.state.trades[|a.trades|].result.value;
      && a.trade.value.entry != 0.0 && r.exit != 0.0
      && r.profit == LegacyRealized(a.fees, a.trade.value, r.exit)
      && s.state.balance == a.balance + r.profit
  {
    if a.trade.None? then Step(a, None) else ClosePosition(a, price, ts, false)
  }

  /** `tightenstop` of the legacy account: the same ratchet as the current
      account's. */
  function TightenStop(a: LegacyAccount, price: real): (s: Step<LegacyAccount>)
    ensures a.trade.None? ==> s == Step(a, None)
    ensures a.trade.Some? && a.trade.value.stop.None? ==> s == Step(a, Some(TypeError))
    ensures a.trade.Some? && a.trade.value.stop.Some? ==>
      var t := a.trade.value;
      && s.Ok() && s.state.trade.Some? && s.state.trade.value.stop.Some?
      && s.state == a.(trade := Some(t.(stop := s.state.trade.value.stop)))
      && (t.side == Long ==> t.stop.value <= s.state.trade.value.stop.value)
      && (t.side == Short ==> s.state.trade.value.stop.value <= t.stop.value)
  {
    match a.trade
    case None => Step(a, None)
    case Some(t) =>
      match Ratchet(t.side, t.stop, price)
      case None => Step(a, Some(TypeError))
      case Some(stop) => Step(a.(trade := Some(t.(stop := Some(stop)))), None)
  }

  /** `update` of the legacy account: the same rollover and flag clearing
      as the current account, then nothing more unless a trade is live
      with a truthy stop; the stop is checked before the take-profit and
      only a stop fill is marked as stopped. */
  function Update(a: LegacyAccount, ts: int, bar: Bar): (s: Step<LegacyAccount>)
    ensures s.state.lastBarDate == Some(ts)
    ensures a.trade.None? || !Truthy(a.trade.value.stop) ==>
      s == Step(a.(tally := Rollover(a.tally, a.lastBarDate, ts), lastBarDate := Some(ts), flags := Cleared), None)
    ensures a.trade.Some? && Truthy(a.trade.value.stop) && StopHit(a.trade.value.side, bar, a.trade.value.stop.value) && s.Ok() ==>
      && s.state.trade.None? && |s.state.trades| == |a.trades| + 1
      && s.state.flags.stopped && s.state.trades[|a.trades|].result.Some?
      && s.state.trades[|a.trades|].result.value.stopped
      && s.state.trades[|a.trades|].result.value.exit == a.trade.value.stop.value
    ensures a.trade.Some? && Truthy(a.trade.value.stop) && !StopHit(a.trade.value.side, bar, a.trade.value.stop.value) ==>
      var t := a.trade.value;
      && (t.tp.None? ==> s.raised == Some(TypeError))
      && (t.tp.Some? && TargetHit(t.side, bar, t.tp.value) && s.Ok() ==>
            && s.state.trade.None? && |s.state.trades| == |a.trades| + 1
            && !s.state.flags.stopped && s.state.trades[|a.trades|].result.Some?
            && !s.state.trades[|a.trades|].result.value.stopped
            && s.state.trades[|a.trades|].result.value.exit == t.tp.value)
      && (t.tp.Some? && !TargetHit(t.side, bar, t.tp.value) ==>
            s == Step(a.(tally := Rollover(a.tally, a.lastBarDate, ts), lastBarDate := Some(ts), flags := Cleared), None))
    ensures s.Ok() && |s.state.trades| == |a.trades| + 1 && s.state.trades[|a.trades|].result.Some? ==>
      var o := Classify(s.state.trades[|a.trades|].result.value.profit);
      && s.state.tally == Rollover(a.tally, a.lastBarDate, ts).Record(o)
      && s.state.flags == CloseFlags(Cleared.(stopped := s.state.trades[|a.trades|].result.value.stopped), o)
    ensures s.Ok() && a.trade.Some? && |s.state.trades| == |a.trades| + 1 && s.state.trades[|a.trades|].result.Some? ==>
      var r := s.state.trades[|a.trades|].result.value;
      && a.trade.value.entry != 0.0 && r.exit != 0.0
      && r.profit == LegacyRealized(a.fees, a.trade.value, r.exit)
      && s.state.balance == a.balance + r.profit
  {
    var a1 := a.(tally := Rollover(a.tally, a.lastBarDate, ts), lastBarDate := Some(ts), flags := Cleared);
    match a1.trade
    case None => Step(a1, None)
    case Some(t) =>
      if !Truthy(t.stop) then Step(a1, None)
      else if StopHit(t.side, bar, t.stop.value) then ClosePosition(a1, t.stop.value, ts, true)
      else
        match t.tp
        case None => Step(a1, Some(TypeError))
        case Some(tp) => if TargetHit(t.side, bar, tp) then ClosePosition(a1, tp, ts, false) else Step(a1, None)
  }

  /** `getResult` of the legacy account: as the current account's, without
      a drawdown. */
  function GetResult(a: LegacyAccount): (r: Result<TestAccount.Summary, PyError>)
    ensures r.Failure? <==> |a.trades| == 0 || a.startBalance == 0.0
    ensures r.Failure? ==> r.error == ZeroDivisionError
    ensures r.Success? ==>
      && r.value.trades == |a.trades|
      && r.value.strikeRate * (|a.trades| as real) == a.tally.totalWon as real * 100.0
      && a.startBalance + a.startBalance * r.value.growth / 100.0 == a.balance
      && r.value.balance == a.balance && r.value.maxDrawdown == None
      && r.value.won == a.tally.totalWon && r.value.lost == a.tally.totalLost && r.value.even == a.tally.totalEven
  {
    if |a.trades| == 0 || a.startBalance == 0.0 then Failure(ZeroDivisionError)
    else
      Success(TestAccount.Summary(|a.trades|, a.tally.totalWon as real / |a.trades| as real * 100.0, a.balance,
                                  Percent(a.startBalance, a.balance), None,
                                  a.tally.totalWon, a.tally.totalLost, a.tally.totalEven))
  }

  /** Opening while a trade is live never leaves two trades: the old one
      is in the history with its result, the new one is live without. */
  lemma OpenReplacesLiveTrade(a: LegacyAccount, side: Side, price: real, stop: Option<real>, tp: Option<real>,
                              risk: real, ts: int)
    requires a.trade.Some? && a.trade.value.entry != 0.0 && price != 0.0 && a.balance != 0.0
    requires !(Truthy(stop) && stop.value == price)
    ensures var s := Open(a, side, price, stop, tp, risk, ts);
      && s.Ok() && s.state.trade.Some? && s.state.trade.value.result.None?
      && s.state.trades == a.trades + [s.state.trades[|a.trades|]]
      && s.state.trades[|a.trades|].entry == a.trade.value.entry
      && s.state.trades[|a.trades|].result.Some?
  {
    var counted := a.(tally := a.tally.CountOpen());
    var c := ClosePosition(counted, price, ts, false);
    assert c.Ok();
  }

  /** `getLasttrade`: the most recently closed trade, if any. */
  function LastTrade(a: LegacyAccount): (r: Option<LegacyTrade>)
    ensures r.Some? <==> |a.trades| > 0
    ensures r.Some? ==> r.value == a.trades[|a.trades| - 1]
  {
    if |a.trades| > 0 then Some(a.trades[|a.trades| - 1]) else None
  }

  /** Opening over a live trade makes the force-closed trade the last
      trade: the old position, exited at the new entry price. An open on a
      flat account leaves the last trade as it was. */
  lemma LastTradeAfterOpen(a: LegacyAccount, side: Side, price: real, stop: Option<real>, tp: Option<real>,
                           risk: real, ts: int)
    ensures a.trade.None? ==> LastTrade(Open(a, side, price, stop, tp, risk, ts).state) == LastTrade(a)
    ensures a.trade.Some? && a.trade.value.entry != 0.0 && price != 0.0 && a.balance != 0.0 ==>
      var l := LastTrade(Open(a, side, price, stop, tp, risk, ts).state);
      && l.Some? && l.value.entry == a.trade.value.entry && l.value.side == a.trade.value.side
      && l.value.exit == Some(price) && l.value.closeTs == Some(ts) && l.value.result.Some?
  {
    if a.trade.Some? && a.trade.value.entry != 0.0 && price != 0.0 && a.balance != 0.0 {
      var counted := a.(tally := a.tally.CountOpen());
      var c := ClosePosition(counted, price, ts, false);
      assert c.Ok();
    }
  }
}
