/** The per-bar replay driver of the engine's backtester: for each row of
    the joined table, in order, the risk gate and the time filter, then
    the signal, then an entry with stop and take-profit derived from the
    ATR, and always the account's per-bar update. An exception inside a
    row is caught, the account keeps whatever the row changed before it,
    and the next row is processed.

    The driver calls `open` with the row's timestamp in the sixth
    positional place, which is the account's `is_maker` parameter, not its
    `timestamp`. Both the call as written and the evidently intended call
    are modelled, and the replay is stated for either. */
module Backtester {
  import opened Wrappers
  import opened PyRuntime
  import opened Utils
  import opened Accounts
  import opened TestAccount
  import opened Engine
  import TestAccountProps

  /** One row of the joined table: the minute bar (its timestamp is the
      row's index), the indicator columns, the ATR and the daily open. */
  datatype Row = Row(bar: Bar, signals: seq<Tri>, atr: real, dailyOpen: Option<real>)

  /** The strategy parameters the driver reads. */
  datatype Strategy = Strategy(risk: real, noTradeHours: seq<int>)

  /** How the driver's `open` call binds its last two arguments. */
  datatype OpenCall = AsWritten | Intended

  /** Stop and take-profit of an entry at `open`: one ATR against the
      position, 0.95 ATR with it, each rounded to two decimals. */
  function Brackets(side: Side, open: real, atr: real): (real, real)
  {
    if side == Long then (Round2(open - 1.0 * atr), Round2(open + 0.95 * atr))
    else (Round2(open + 1.0 * atr), Round2(open - 0.95 * atr))
  }

  /** With an ATR above one cent the rounded brackets still straddle the
      entry: below and above it for a long, above and below for a short. */
  lemma BracketsStraddleEntry(side: Side, open: real, atr: real)
    requires atr > 0.01
    ensures side == Long ==> Brackets(side, open, atr).0 < open < Brackets(side, open, atr).1
    ensures side == Short ==> Brackets(side, open, atr).1 < open < Brackets(side, open, atr).0
  {
  }

  /** The entry a signalled row makes: the stop and take-profit are given,
      the strategy's risk is used, and the timestamp goes where `call`
      binds it. */
  function Enter(a: Account, side: Side, row: Row, strat: Strategy, call: OpenCall): (s: Step<Account>)
    ensures s.Ok() ==> s.state.trade.Some? && s.state.trade.value.side == side && s.state.trade.value.entry == row.bar.open
    ensures s.Ok() ==> s.state.trade.value.stop == Some(Brackets(side, row.bar.open, row.atr).0)
    ensures s.Ok() ==> s.state.trade.value.tp == Some(Brackets(side, row.bar.open, row.atr).1)
    ensures s.Ok() ==> s.state.trade.value.risk == strat.risk
    ensures s.Ok() && call == Intended ==> s.state.trade.value.openTs == Some(row.bar.ts)
    ensures s.Ok() && call == AsWritten ==> s.state.trade.value.openTs == None
  {
    var (sl, tp) := Brackets(side, row.bar.open, row.atr);
    match call
    case AsWritten => Open(a, side, row.bar.open, Some(sl), Some(tp), strat.risk, row.bar.ts != 0, None)
    case Intended => Open(a, side, row.bar.open, Some(sl), Some(tp), strat.risk, false, Some(row.bar.ts))
  }

  /** `process_kline` with the `open` call bound as `call`: when the risk
      gate and the time filter pass and the row signals, an entry; then,
      unless the entry raised, the account's update with this very row.
      The returned exception is the one the driver catches and logs. */
  function Process(a: Account, row: Row, strat: Strategy, call: OpenCall): (s: Step<Account>)
    ensures !(RiskGate(a) && CheckTime(row.bar.ts, strat.noTradeHours)) ==> s == Update(a, row.bar.ts, row.bar)
    ensures CheckSignal(row.signals, row.bar.open, row.dailyOpen) == NoSignal ==> s == Update(a, row.bar.ts, row.bar)
    ensures RiskGate(a) && CheckTime(row.bar.ts, strat.noTradeHours)
            && CheckSignal(row.signals, row.bar.open, row.dailyOpen) != NoSignal ==>
      var side := if CheckSignal(row.signals, row.bar.open, row.dailyOpen) == GoLong then Long else Short;
      var e := Enter(a, side, row, strat, call);
      && (e.Ok() ==> s == Update(e.state, row.bar.ts, row.bar))
      && (!e.Ok() ==> s == e)
    ensures s.Ok() ==> s.state.lastBarDate == Some(row.bar.ts)
    ensures a.trades <= s.state.trades
  {
    var entered :=
      if RiskGate(a) && CheckTime(row.bar.ts, strat.noTradeHours) then
        match CheckSignal(row.signals, row.bar.open, row.dailyOpen)
        case GoLong => Enter(a, Long, row, strat, call)
        case GoShort => Enter(a, Short, row, strat, call)
        case NoSignal => Step(a, None)
      else Step(a, None);
    if !entered.Ok() then entered
    else
      var s := Update(entered.state, row.bar.ts, row.bar);
      UpdateExtendsHistory(entered.state, row.bar.ts, row.bar);
      s
  }

  /** The per-bar update never removes a trade from the history. */
  lemma UpdateExtendsHistory(a: Account, ts: int, bar: Bar)
    ensures a.trades <= Update(a, ts, bar).state.trades
  {
    var s := Update(a, ts, bar);
    if s.Ok() && |s.state.trades| == |a.trades| + 1 {
      assert s.state.trades[..|a.trades|] == a.trades;
    }
  }

  /** The entry facts a per-bar update leaves alone: whenever a live trade
      survives the update (not filled, or its close raised), its entry,
      size, seeded profit and open time are those it had before. */
  lemma UpdateKeepsEntry(a: Account, ts: int, bar: Bar)
    requires a.trade.Some?
    ensures var s := Update(a, ts, bar);
      s.state.trade.Some? ==>
        && s.state.trade.value.entry == a.trade.value.entry
        && s.state.trade.value.size == a.trade.value.size
        && s.state.trade.value.pnl == a.trade.value.pnl
        && s.state.trade.value.openTs == a.trade.value.openTs
  {
  }

  /** The trade a row leaves live, when the account had none, is the one
      the row opened. */
  lemma ProcessLiveTrade(a: Account, row: Row, strat: Strategy, call: OpenCall)
    ensures a.trade.None? && Process(a, row, strat, call).state.trade.Some? ==>
      RiskGate(a) && CheckTime(row.bar.ts, strat.noTradeHours)
    ensures a.trade.None? && Process(a, row, strat, call).state.trade.Some? ==>
      var sig := CheckSignal(row.signals, row.bar.open, row.dailyOpen);
      && sig != NoSignal
      && var e := Enter(a, if sig == GoLong then Long else Short, row, strat, call);
      && e.Ok() && e.state.trade.Some?
      && Process(a, row, strat, call).state.trade.value.openTs == e.state.trade.value.openTs
      && Process(a, row, strat, call).state.trade.value.pnl == e.state.trade.value.pnl
      && Process(a, row, strat, call).state.trade.value.size == e.state.trade.value.size
  {
    var sig := CheckSignal(row.signals, row.bar.open, row.dailyOpen);
    if a.trade.None? && RiskGate(a) && CheckTime(row.bar.ts, strat.noTradeHours) && sig != NoSignal {
      var e := Enter(a, if sig == GoLong then Long else Short, row, strat, call);
      if e.Ok() {
        UpdateKeepsEntry(e.state, row.bar.ts, row.bar);
      }
    }
  }

  /** `process_kline` as the driver calls it: a trade it opens on an
      account without one records no open time and, on a row with a
      non-zero timestamp at a positive price, is seeded with the maker
      rebate. */
  function ProcessKlineAsWritten(a: Account, row: Row, strat: Strategy): (s: Step<Account>)
    ensures a.trades <= s.state.trades
    ensures a.trade.None? && s.state.trade.Some? ==>
      && s.state.trade.value.openTs == None
      && (row.bar.ts != 0 && row.bar.open > 0.0 ==>
            s.state.trade.value.pnl == s.state.trade.value.size / row.bar.open * MakerFee)
  {
    ProcessLiveTrade(a, row, strat, AsWritten);
    Process(a, row, strat, AsWritten)
  }

  /** `process_kline` with `open` given the row's timestamp as its
      timestamp and the default taker entry: a trade it opens on an
      account without one records the row's time and, at a positive
      price, is seeded with the taker fee. */
  function ProcessKline(a: Account, row: Row, strat: Strategy): (s: Step<Account>)
    ensures a.trades <= s.state.trades
    ensures a.trade.None? && s.state.trade.Some? ==>
      && s.state.trade.value.openTs == Some(row.bar.ts)
      && (row.bar.open > 0.0 ==>
            s.state.trade.value.pnl == -(s.state.trade.value.size / row.bar.open * TakerFee))
  {
    ProcessLiveTrade(a, row, strat, Intended);
    Process(a, row, strat, Intended)
  }

  /** `process_kline` with the `open` call bound as `call`. */
  function ProcessKlineWith(a: Account, row: Row, strat: Strategy, call: OpenCall): (s: Step<Account>)
    ensures a.trades <= s.state.trades
  {
    match call
    case AsWritten => ProcessKlineAsWritten(a, row, strat)
    case Intended => ProcessKline(a, row, strat)
  }

  /** `execute_strategy`: every row processed in table order, each row
      starting from the account the previous one left, with the `open`
      call bound as `call`. The closed trades only ever grow. */
  function ExecuteStrategy(a: Account, rows: seq<Row>, strat: Strategy, call: OpenCall): (r: Account)
    decreases |rows|
    ensures a.trades <= r.trades
  {
    if |rows| == 0 then a else ExecuteStrategy(ProcessKlineWith(a, rows[0], strat, call).state, rows[1..], strat, call)
  }

  /** Replaying two tables back to back is replaying their concatenation. */
  lemma {:induction false} ExecuteStrategyConcat(a: Account, rows1: seq<Row>, rows2: seq<Row>, strat: Strategy,
                                                 call: OpenCall)
    decreases |rows1|
    ensures ExecuteStrategy(a, rows1 + rows2, strat, call)
         == ExecuteStrategy(ExecuteStrategy(a, rows1, strat, call), rows2, strat, call)
  {
    if |rows1| > 0 {
      assert (rows1 + rows2)[0] == rows1[0];
      assert (rows1 + rows2)[1..] == rows1[1..] + rows2;
      var b := ProcessKlineWith(a, rows1[0], strat, call).state;
      ExecuteStrategyConcat(b, rows1[1..], rows2, strat, call);
      assert ExecuteStrategy(a, rows1 + rows2, strat, call) == ExecuteStrategy(b, rows1[1..] + rows2, strat, call);
      assert ExecuteStrategy(a, rows1, strat, call) == ExecuteStrategy(b, rows1[1..], strat, call);
    } else {
      assert rows1 + rows2 == rows2;
    }
  }

  /** A replay, with the call as written or as intended, keeps the account
      invariant and never loses a closed trade. */
  lemma {:induction false} ExecuteStrategyInvariant(a: Account, rows: seq<Row>, strat: Strategy, call: OpenCall)
    requires TestAccountProps.Sound(a)
    decreases |rows|
    ensures TestAccountProps.Sound(ExecuteStrategy(a, rows, strat, call))
    ensures a.trades <= ExecuteStrategy(a, rows, strat, call).trades
  {
    if |rows| > 0 {
      var s := ProcessKlineWith(a, rows[0], strat, call);
      ProcessKeepsSound(a, rows[0], strat, call);
      ExecuteStrategyInvariant(s.state, rows[1..], strat, call);
    }
  }

  lemma ProcessKeepsSound(a: Account, row: Row, strat: Strategy, call: OpenCall)
    requires TestAccountProps.Sound(a)
    ensures TestAccountProps.Sound(Process(a, row, strat, call).state)
  {
    var (sl, tp) := Brackets(Long, row.bar.open, row.atr);
    var (ssl, stp) := Brackets(Short, row.bar.open, row.atr);
    TestAccountProps.OpenPreservesInvariants(a, Long, row.bar.open, Some(sl), Some(tp), strat.risk, row.bar.ts != 0, None);
    TestAccountProps.OpenPreservesInvariants(a, Long, row.bar.open, Some(sl), Some(tp), strat.risk, false, Some(row.bar.ts));
    TestAccountProps.OpenPreservesInvariants(a, Short, row.bar.open, Some(ssl), Some(stp), strat.risk, row.bar.ts != 0, None);
    TestAccountProps.OpenPreservesInvariants(a, Short, row.bar.open, Some(ssl), Some(stp), strat.risk, false, Some(row.bar.ts));
    var entered :=
      if RiskGate(a) && CheckTime(row.bar.ts, strat.noTradeHours) then
        match CheckSignal(row.signals, row.bar.open, row.dailyOpen)
        case GoLong => Enter(a, Long, row, strat, call)
        case GoShort => Enter(a, Short, row, strat, call)
        case NoSignal => Step(a, None)
      else Step(a, None);
    TestAccountProps.UpdatePreservesInvariants(entered.state, row.bar.ts, row.bar);
  }

  /** A trade opened on a row is checked against that same row: a long
      entered on a bar whose low reaches the stop is stopped out on that
      bar, at the stop, with a taker exit. */
  lemma SameBarStopOut(a: Account, row: Row, strat: Strategy, call: OpenCall)
    requires RiskGate(a) && CheckTime(row.bar.ts, strat.noTradeHours)
    requires CheckSignal(row.signals, row.bar.open, row.dailyOpen) == GoLong
    requires Enter(a, Long, row, strat, call).Ok()
    requires row.bar.low <= Brackets(Long, row.bar.open, row.atr).0
    ensures var s := Process(a, row, strat, call);
      s.Ok() ==>
        && s.state.trade.None? && |s.state.trades| == |a.trades| + 1
        && s.state.trades[|a.trades|].result.Some?
        && s.state.trades[|a.trades|].result.value.stopped
        && s.state.trades[|a.trades|].result.value.exit == Brackets(Long, row.bar.open, row.atr).0
  {
    var e := Enter(a, Long, row, strat, call);
    assert e.state.trades == a.trades;
  }

  /** A close decides the gate for the rest of the day: a win shuts it, a
      fourth loss shuts it, and any other outcome leaves it open when there
      was no earlier win and at most two earlier losses. */
  lemma RiskGateAfterClose(a: Account, price: real, isMaker: bool, ts: Option<int>)
    requires a.trade.Some?
    ensures var s := ClosePosition(a, price, isMaker, ts);
      s.Ok() ==>
        var o := Classify(s.state.trades[|a.trades|].result.value.profit);
        && (o == Won ==> !RiskGate(s.state))
        && (o == Lost && a.tally.dailyLost == 3 ==> !RiskGate(s.state))
        && (o != Won && a.tally.dailyWon == 0 && a.tally.dailyLost <= 2 ==> RiskGate(s.state))
  {
  }

  /** The risk gate closes for the day once a trade is won or a fourth
      trade is lost, and opens again at the first bar of a new day when no
      trade is live. */
  lemma GateReopensOnNewDay(a: Account, ts: int, bar: Bar)
    ensures a.tally.dailyWon >= 1 || a.tally.dailyLost > 3 ==> !RiskGate(a)
    ensures a.trade.None? && TruthyInt(a.lastBarDate) && !SameDay(a.lastBarDate.value, ts) ==>
      RiskGate(Update(a, ts, bar).state)
  {
  }

  // ---------------------------------------------------------------------
  // the sixth positional argument of `open`

  /** As written, a long entered on any row with a non-zero timestamp is
      seeded with the maker rebate instead of the taker fee, and records
      no open time. */
  lemma AsWrittenSeedsMakerRebate(a: Account, row: Row, strat: Strategy)
    requires RiskGate(a) && CheckTime(row.bar.ts, strat.noTradeHours)
    requires CheckSignal(row.signals, row.bar.open, row.dailyOpen) == GoLong
    requires row.bar.ts != 0 && row.bar.open > 0.0
    requires Enter(a, Long, row, strat, AsWritten).Ok()
    ensures var t := Enter(a, Long, row, strat, AsWritten).state.trade.value;
      t.openTs == None && t.pnl == t.size / row.bar.open * MakerFee
  {
  }

  /** A concrete row: a long at 50000 with an ATR of 1000 on a fresh
      account, at a bar whose range reaches neither bracket. The row as
      written credits a 0.0006125 rebate on entry; the intended call
      charges the 0.0018375 taker fee and stamps the entry time. */
  lemma AsWrittenExample()
    ensures var a := NewAccount(1.0);
      var row := Row(Bar(1613779200, 50000.0, 50100.0, 49900.0, 50050.0), [True], 1000.0, Some(49000.0));
      var strat := Strategy(5.0, []);
      var w := ProcessKlineAsWritten(a, row, strat);
      var i := ProcessKline(a, row, strat);
      && w.Ok() && w.state.trade.Some? && w.state.trade.value.pnl == 0.0006125 && w.state.trade.value.openTs == None
      && i.Ok() && i.state.trade.Some? && i.state.trade.value.pnl == -0.0018375
      && i.state.trade.value.openTs == Some(1613779200)
  {
    var a := NewAccount(1.0);
    var row := Row(Bar(1613779200, 50000.0, 50100.0, 49900.0, 50050.0), [True], 1000.0, Some(49000.0));
    assert RoundHalfEven(4900000.0) == 4900000;
    assert RoundHalfEven(5095000.0) == 5095000;
    assert Brackets(Long, 50000.0, 1000.0) == (49000.0, 50950.0);
    assert 1.0 / 50000.0 - 1.0 / 49000.0 == -1.0 / 2450000.0;
    var e := Enter(a, Long, row, Strategy(5.0, []), AsWritten);
    assert e.state.trade.value.size * (1.0 / 2450000.0) == 0.05;
    var f := Enter(a, Long, row, Strategy(5.0, []), Intended);
    assert f.state.trade.value.size * (1.0 / 2450000.0) == 0.05;
  }

  /** With the intended call every entry records the row's time, and a
      stop-sized taker entry at a positive price is seeded with a fee,
      never a rebate. */
  lemma IntendedSeedsTakerFee(a: Account, side: Side, row: Row, strat: Strategy)
    requires row.bar.open > 0.0
    requires Enter(a, side, row, strat, Intended).Ok()
    ensures var t := Enter(a, side, row, strat, Intended).state.trade.value;
      && t.openTs == Some(row.bar.ts)
      && t.pnl == -(t.size / row.bar.open * TakerFee)
  {
  }
}
