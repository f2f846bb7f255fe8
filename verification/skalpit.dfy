/** The minute-bar loop of the scalping strategy, run against the legacy
    account: visit every minute from the start timestamp up to, not
    including, the end; refresh the hour bucket at each hour start and the
    daily open at each day start; when the risk gate passes, resolve the
    hourly Hull overlap against the daily open, enter with a stop at the
    smaller of the daily ATR and the hour's low and a take-profit at 0.95
    ATR; and always run the account's update. An exception inside a
    minute is caught and the loop moves on by 60 seconds.

    The data frames become maps from timestamp to value; a missing key is
    a KeyError. */
module Skalpit {
  import opened Wrappers
  import opened PyRuntime
  import opened Utils
  import opened Accounts
  import opened Engine
  import LegacyBacktester

  /** The tables the loop reads: minute bars, the hourly Hull overlap, the
      hourly 24-period ATR and the hourly lows. */
  datatype Market = Market(
    bars1m: map<int, Bar>,
    overlap: map<int, bool>,
    atr24: map<int, real>,
    lows1h: map<int, real>)

  /** What the loop carries from one minute to the next. */
  datatype LoopState = LoopState(tester: LegacyBacktester.LegacyAccount, hourTs: int, dailyOpen: real)

  /** `_check_risk_management` of the scalper: at most one win today (one
      more than the engine's gate allows), at most three losses, and no
      live trade. */
  predicate SkalpitRiskGate(a: LegacyBacktester.LegacyAccount) {
    a.tally.dailyWon <= 1 && a.tally.dailyLost <= 3 && a.trade.None?
  }

  /** The scalper's gate admits one more win than the engine's: it holds
      whenever the engine's would, and also after exactly one win. */
  lemma SkalpitGateLooserThanEngine(a: Account, b: LegacyBacktester.LegacyAccount)
    requires a.tally == b.tally && a.trade.None? == b.trade.None?
    ensures RiskGate(a) ==> SkalpitRiskGate(b)
    ensures a.tally.dailyWon == 1 && a.tally.dailyLost <= 3 && a.trade.None? ==> SkalpitRiskGate(b) && !RiskGate(a)
  {
  }

  /** `_check_signal` of the scalper: long on an overlap with the price
      above the daily open, short without one and the price below. */
  function SkalpitSignal(overlap: bool, price: real, dailyOpen: real): (r: Signal)
    ensures r == GoLong <==> overlap && price > dailyOpen
    ensures r == GoShort <==> !overlap && price < dailyOpen
    ensures r == NoSignal <==> price == dailyOpen || (overlap && price < dailyOpen) || (!overlap && price > dailyOpen)
  {
    if overlap && price > dailyOpen then GoLong
    else if !overlap && price < dailyOpen then GoShort
    else NoSignal
  }

  /** Stop and take-profit of a scalper entry. A long uses the ATR as
      read; a short first rounds it to two decimals. The stop distance is
      the smaller of the ATR and the hour's low. */
  function SkalpitBrackets(side: Side, open: real, atr24: real, hourLow: real): (r: (real, real))
    ensures var atr := if side == Long then atr24 else Round2(atr24);
      var dist := Min(atr, hourLow);
      && -0.005 <= r.0 - (if side == Long then open - dist else open + dist) <= 0.005
      && -0.005 <= r.1 - (if side == Long then open + 0.95 * atr else open - 0.95 * atr) <= 0.005
  {
    if side == Long then
      (Round2(open - Min(atr24, hourLow)), Round2(open + 0.95 * atr24))
    else
      var atr := Round2(atr24);
      (Round2(open + Min(atr, hourLow)), Round2(open - 0.95 * atr))
  }

  /** The entry of a signalled minute: look up the ATR and the hour's low
      for the hour bucket (KeyError when missing), bracket and open. */
  function SkalpitEnter(m: Market, a: LegacyBacktester.LegacyAccount, side: Side, open: real, hourTs: int,
                        risk: real, index: int): (s: Step<LegacyBacktester.LegacyAccount>)
    ensures hourTs !in m.atr24 || hourTs !in m.lows1h ==> s == Step(a, Some(KeyError))
    ensures s.Ok() ==> hourTs in m.atr24 && hourTs in m.lows1h
    ensures s.Ok() ==>
      && s.state.trade.Some? && s.state.trade.value.side == side && s.state.trade.value.entry == open
      && s.state.trade.value.openTs == index && s.state.trade.value.risk == risk
      && s.state.trade.value.stop == Some(SkalpitBrackets(side, open, m.atr24[hourTs], m.lows1h[hourTs]).0)
      && s.state.trade.value.tp == Some(SkalpitBrackets(side, open, m.atr24[hourTs], m.lows1h[hourTs]).1)
  {
    if hourTs !in m.atr24 || hourTs !in m.lows1h then Step(a, Some(KeyError))
    else
      var (sl, tp) := SkalpitBrackets(side, open, m.atr24[hourTs], m.lows1h[hourTs]);
      LegacyBacktester.Open(a, side, open, Some(sl), Some(tp), risk, index)
  }

  /** One iteration of the loop body at minute `index`. The hour bucket
      and the daily open are refreshed before the signal is read; the
      update runs unless something before it raised. */
  function SkalpitMinute(m: Market, st: LoopState, index: int, risk: real): (s: Step<LoopState>)
    ensures index !in m.bars1m ==> s == Step(st, Some(KeyError))
    ensures index in m.bars1m ==>
      && s.state.hourTs == (if StartOfHour(index) then index else st.hourTs)
      && s.state.dailyOpen == (if StartOfDay(index) then m.bars1m[index].open else st.dailyOpen)
    ensures !SkalpitRiskGate(st.tester) && index in m.bars1m ==>
      s.state.tester == LegacyBacktester.Update(st.tester, index, m.bars1m[index]).state
    ensures SkalpitRiskGate(st.tester) && index in m.bars1m ==>
      var row := m.bars1m[index];
      var hourTs := if StartOfHour(index) then index else st.hourTs;
      var dailyOpen := if StartOfDay(index) then row.open else st.dailyOpen;
      && (hourTs !in m.overlap ==> s.state.tester == st.tester && s.raised == Some(KeyError))
      && (hourTs in m.overlap && SkalpitSignal(m.overlap[hourTs], row.open, dailyOpen) == NoSignal ==>
            s.state.tester == LegacyBacktester.Update(st.tester, index, row).state
            && s.raised == LegacyBacktester.Update(st.tester, index, row).raised)
    ensures SkalpitRiskGate(st.tester) && index in m.bars1m ==>
      var row := m.bars1m[index];
      var hourTs := if StartOfHour(index) then index else st.hourTs;
      var dailyOpen := if StartOfDay(index) then row.open else st.dailyOpen;
      hourTs in m.overlap && SkalpitSignal(m.overlap[hourTs], row.open, dailyOpen) != NoSignal ==>
      var side := if SkalpitSignal(m.overlap[hourTs], row.open, dailyOpen) == GoLong then Long else Short;
      var e := SkalpitEnter(m, st.tester, side, row.open, hourTs, risk, index);
      && (e.Ok() ==> s.state.tester == LegacyBacktester.Update(e.state, index, row).state
                     && s.raised == LegacyBacktester.Update(e.state, index, row).raised)
      && (!e.Ok() ==> s.state.tester == e.state && s.raised == e.raised)
    ensures st.tester.trades <= s.state.tester.trades
  {
    if index !in m.bars1m then Step(st, Some(KeyError))
    else
      var row := m.bars1m[index];
      var hourTs := if StartOfHour(index) then index else st.hourTs;
      var dailyOpen := if StartOfDay(index) then row.open else st.dailyOpen;
      var st1 := st.(hourTs := hourTs, dailyOpen := dailyOpen);
      var entered :=
        if !SkalpitRiskGate(st.tester) then Step(st.tester, None)
        else if hourTs !in m.overlap then Step(st.tester, Some(KeyError))
        else
          match SkalpitSignal(m.overlap[hourTs], row.open, dailyOpen)
          case GoLong => SkalpitEnter(m, st.tester, Long, row.open, hourTs, risk, index)
          case GoShort => SkalpitEnter(m, st.tester, Short, row.open, hourTs, risk, index)
          case NoSignal => Step(st.tester, None);
      LegacyOpenExtendsHistory(st.tester, entered, m, row.open, hourTs, risk, index);
      if !entered.Ok() then Step(st1.(tester := entered.state), entered.raised)
      else
        var u := LegacyBacktester.Update(entered.state, index, row);
        LegacyUpdateExtendsHistory(entered.state, index, row);
        Step(st1.(tester := u.state), u.raised)
  }

  /** An entry attempt never removes a trade from the history. */
  lemma LegacyOpenExtendsHistory(a: LegacyBacktester.LegacyAccount, entered: Step<LegacyBacktester.LegacyAccount>,
                                 m: Market, open: real, hourTs: int, risk: real, index: int)
    requires entered == Step(a, None) || entered == Step(a, Some(KeyError))
          || entered == SkalpitEnter(m, a, Long, open, hourTs, risk, index)
          || entered == SkalpitEnter(m, a, Short, open, hourTs, risk, index)
    ensures a.trades <= entered.state.trades
  {
    if hourTs in m.atr24 && hourTs in m.lows1h {
      var (sl, tp) := SkalpitBrackets(Long, open, m.atr24[hourTs], m.lows1h[hourTs]);
      var (ssl, stp) := SkalpitBrackets(Short, open, m.atr24[hourTs], m.lows1h[hourTs]);
      LegacyOpenKeepsHistory(a, Long, open, Some(sl), Some(tp), risk, index);
      LegacyOpenKeepsHistory(a, Short, open, Some(ssl), Some(stp), risk, index);
    }
  }

  /** The legacy `open` only ever appends to the history. */
  lemma LegacyOpenKeepsHistory(a: LegacyBacktester.LegacyAccount, side: Side, price: real, stop: Option<real>,
                               tp: Option<real>, risk: real, ts: int)
    ensures a.trades <= LegacyBacktester.Open(a, side, price, stop, tp, risk, ts).state.trades
  {
    var counted := a.(tally := a.tally.CountOpen());
    if counted.trade.Some? {
      var c := LegacyBacktester.ClosePosition(counted, price, ts, false);
      if c.Ok() {
        assert c.state.trades[..|a.trades|] == a.trades;
      }
    }
  }

  /** The legacy `update` only ever appends to the history. */
  lemma LegacyUpdateExtendsHistory(a: LegacyBacktester.LegacyAccount, ts: int, bar: Bar)
    ensures a.trades <= LegacyBacktester.Update(a, ts, bar).state.trades
  {
  }

  /** The minutes the loop visits: `start`, `start + 60`, … while below
      `end`. */
  function Visits(start: int, end: int): (r: seq<int>)
    decreases end - start
  {
    if start >= end then [] else [start] + Visits(start + 60, end)
  }

  /** The visited minutes are exactly the minutes `start + 60 k` below
      `end`, in increasing order. */
  lemma {:induction false} VisitsSpec(start: int, end: int)
    decreases end - start
    ensures forall k :: 0 <= k < |Visits(start, end)| ==> Visits(start, end)[k] == start + 60 * k
    ensures forall k :: 0 <= k < |Visits(start, end)| ==> Visits(start, end)[k] < end
    ensures start + 60 * |Visits(start, end)| >= end
  {
    if start < end {
      VisitsSpec(start + 60, end);
      var v := Visits(start, end);
      assert v == [start] + Visits(start + 60, end);
      forall k | 0 < k < |v|
        ensures v[k] == start + 60 * k
      {
        assert v[k] == Visits(start + 60, end)[k - 1];
      }
    }
  }

  /** The loop as a fold over the visited minutes; an exception in a
      minute is swallowed and the loop carries on with what it left. */
  function Run(m: Market, st: LoopState, minutes: seq<int>, risk: real): LoopState
    decreases |minutes|
  {
    if |minutes| == 0 then st else Run(m, SkalpitMinute(m, st, minutes[0], risk).state, minutes[1..], risk)
  }

  /** The history of the account only grows over a run. */
  lemma {:induction false} RunExtendsHistory(m: Market, st: LoopState, minutes: seq<int>, risk: real)
    decreases |minutes|
    ensures st.tester.trades <= Run(m, st, minutes, risk).tester.trades
  {
    if |minutes| > 0 {
      RunExtendsHistory(m, SkalpitMinute(m, st, minutes[0], risk).state, minutes[1..], risk);
    }
  }

  /** `execute_strategy` of the scalper. The daily open starts as the open
      of the start minute, read outside the loop's exception handler, so a
      missing start minute fails the whole run with KeyError; the hour
      bucket starts at the start minute. */
  method ExecuteSkalpit(m: Market, tester: LegacyBacktester.LegacyAccount, startTs: int, endTs: int, risk: real)
    returns (r: Result<LoopState, PyError>)
    ensures startTs !in m.bars1m <==> r == Failure(KeyError)
    ensures r.Success? ==>
      r.value == Run(m, LoopState(tester, startTs, m.bars1m[startTs].open), Visits(startTs, endTs), risk)
    ensures r.Success? ==> tester.trades <= r.value.tester.trades
  {
    if startTs !in m.bars1m {
      return Failure(KeyError);
    }
    var init := LoopState(tester, startTs, m.bars1m[startTs].open);
    var st := init;
    var index := startTs;
    while index < endTs
      invariant Run(m, st, Visits(index, endTs), risk) == Run(m, init, Visits(startTs, endTs), risk)
      invariant tester.trades <= st.tester.trades
      decreases endTs - index
    {
      var v := Visits(index, endTs);
      assert v == [index] + Visits(index + 60, endTs);
      assert v[1..] == Visits(index + 60, endTs);
      var s := SkalpitMinute(m, st, index, risk);
      st := s.state;
      index := index + 60;
    }
    RunExtendsHistory(m, init, Visits(startTs, endTs), risk);
    return Success(st);
  }
}
