/** Properties of the backtesting account across operations: the soundness
    invariant every operation keeps, the agreement of the total counters
    with the closed-trade history, the bounds of the reported strike rate,
    the once-per-day rollover, the stop ratchet over many calls, and the
    worked examples of the account's unit tests. */
module TestAccountProps {
  import opened Wrappers
  import opened PyRuntime
  import opened Utils
  import opened Accounts
  import opened TestAccount

  /** The account invariant: a positive high-water mark at or above the
      balance, a drawdown that is never positive, a result on every closed
      trade and none on the live one. */
  predicate Sound(a: Account) {
    && 0.0 < a.maxBalance
    && a.balance <= a.maxBalance
    && a.maxDrawdown <= 0.0
    && (forall i :: 0 <= i < |a.trades| ==> a.trades[i].result.Some?)
    && (a.trade.Some? ==> a.trade.value.result.None?)
  }

  /** Whether `t` is a closed trade with outcome `o`. */
  predicate HasOutcome(t: Trade, o: Outcome) {
    t.result.Some? && Classify(t.result.value.profit) == o
  }

  /** The number of trades of `trades` with outcome `o`. */
  function CountOutcome(trades: seq<Trade>, o: Outcome): (n: nat)
    ensures n <= |trades|
    ensures n == |trades| ==> forall i :: 0 <= i < |trades| ==> HasOutcome(trades[i], o)
  {
    if |trades| == 0 then 0
    else CountOutcome(trades[..|trades| - 1], o) + (if HasOutcome(trades[|trades| - 1], o) then 1 else 0)
  }

  /** The total counters count the history by outcome. */
  predicate Tallied(a: Account) {
    && a.tally.totalWon == CountOutcome(a.trades, Won)
    && a.tally.totalLost == CountOutcome(a.trades, Lost)
    && a.tally.totalEven == CountOutcome(a.trades, Even)
  }

  /** A fresh account with a positive start balance is sound and tallied. */
  lemma NewAccountSound(startBalance: real)
    requires 0.0 < startBalance
    ensures Sound(NewAccount(startBalance)) && Tallied(NewAccount(startBalance))
  {
  }

  /** Every closed trade has exactly one outcome, so the three counts add up
      to the length of the history. */
  lemma {:induction false} OutcomesPartition(trades: seq<Trade>)
    requires forall i :: 0 <= i < |trades| ==> trades[i].result.Some?
    ensures CountOutcome(trades, Won) + CountOutcome(trades, Lost) + CountOutcome(trades, Even) == |trades|
  {
    if |trades| > 0 {
      OutcomesPartition(trades[..|trades| - 1]);
    }
  }

  /** Appending one trade adds its outcome to the counts. */
  lemma CountOutcomeSnoc(trades: seq<Trade>, t: Trade, o: Outcome)
    ensures CountOutcome(trades + [t], o) == CountOutcome(trades, o) + (if HasOutcome(t, o) then 1 else 0)
  {
    assert (trades + [t])[..|trades|] == trades;
  }

  lemma OpenPreservesInvariants(a: Account, side: Side, price: real, stop: Option<real>, tp: Option<real>,
                                risk: real, isMaker: bool, ts: Option<int>)
    requires Sound(a)
    ensures Sound(Open(a, side, price, stop, tp, risk, isMaker, ts).state)
    ensures Tallied(a) ==> Tallied(Open(a, side, price, stop, tp, risk, isMaker, ts).state)
  {
  }

  /** A close keeps the invariant whether or not it raises; a close that
      completes moves exactly one trade into the history and counts it. */
  lemma ClosePreservesInvariants(a: Account, price: real, isMaker: bool, ts: Option<int>)
    requires a.trade.Some? && Sound(a)
    ensures Sound(ClosePosition(a, price, isMaker, ts).state)
    ensures Tallied(a) && ClosePosition(a, price, isMaker, ts).Ok() ==> Tallied(ClosePosition(a, price, isMaker, ts).state)
  {
    CloseKeepsSound(a, price, isMaker, ts);
    if Tallied(a) && ClosePosition(a, price, isMaker, ts).Ok() {
      CloseKeepsTallied(a, price, isMaker, ts);
    }
  }

  lemma CloseKeepsSound(a: Account, price: real, isMaker: bool, ts: Option<int>)
    requires a.trade.Some? && Sound(a)
    ensures Sound(ClosePosition(a, price, isMaker, ts).state)
  {
    var s := ClosePosition(a, price, isMaker, ts);
    if s.Ok() {
      assert s.state.trades == a.trades + [s.state.trades[|a.trades|]];
    } else {
      var t := a.trade.value.(closeTs := ts, exit := Some(price));
      if t.entry != 0.0 && price != 0.0 {
        var balance := a.balance + Realized(t, price, isMaker);
        assert s.state.trade == Some(t) && s.state.balance == balance && s.state.maxBalance == Max(balance, a.maxBalance);
      }
    }
  }

  lemma CloseKeepsTallied(a: Account, price: real, isMaker: bool, ts: Option<int>)
    requires a.trade.Some? && Tallied(a) && ClosePosition(a, price, isMaker, ts).Ok()
    ensures Tallied(ClosePosition(a, price, isMaker, ts).state)
  {
    var s := ClosePosition(a, price, isMaker, ts);
    var u := s.state.trades[|a.trades|];
    assert s.state.trades == a.trades + [u];
    CountOutcomeSnoc(a.trades, u, Won);
    CountOutcomeSnoc(a.trades, u, Lost);
    CountOutcomeSnoc(a.trades, u, Even);
  }

  /** Under the invariant a close raises only for a zero price, a zero
      entry or a zero balance. */
  lemma CloseRaisesOnlyOnZero(a: Account, price: real, isMaker: bool, ts: Option<int>)
    requires a.trade.Some? && Sound(a)
    requires a.trade.value.entry != 0.0 && price != 0.0 && a.balance != 0.0
    ensures ClosePosition(a, price, isMaker, ts).Ok()
  {
  }

  lemma UpdatePreservesInvariants(a: Account, ts: int, bar: Bar)
    requires Sound(a)
    ensures Sound(Update(a, ts, bar).state)
    ensures Tallied(a) && Update(a, ts, bar).Ok() ==> Tallied(Update(a, ts, bar).state)
  {
    var a1 := a.(tally := Rollover(a.tally, a.lastBarDate, ts), lastBarDate := Some(ts), flags := Cleared);
    if a1.trade.Some? && a1.trade.value.stop.Some? {
      var t := a1.trade.value;
      if StopHit(t.side, bar, t.stop.value) {
        ClosePreservesInvariants(a1.(flags := a1.flags.(stopped := true)), t.stop.value, false, Some(ts));
      } else if t.tp.Some? && TargetHit(t.side, bar, t.tp.value) {
        ClosePreservesInvariants(a1, t.tp.value, true, Some(ts));
      }
    }
  }

  lemma TightenStopPreservesInvariants(a: Account, price: real)
    requires Sound(a) && Tallied(a)
    ensures Sound(TightenStop(a, price).state) && Tallied(TightenStop(a, price).state)
  {
  }

  /** With the totals counting the history, the reported strike rate is a
      percentage. */
  lemma StrikeRateBounds(a: Account)
    requires Tallied(a) && GetResult(a).Success?
    ensures 0.0 <= GetResult(a).value.strikeRate <= 100.0
  {
    var n := |a.trades| as real;
    var r := GetResult(a).value.strikeRate;
    assert r * n == a.tally.totalWon as real * 100.0;
    assert a.tally.totalWon as real <= n;
    ScaledShareBounds(r, n, a.tally.totalWon as real);
  }

  /** A share `w` of a positive whole `n`, scaled so that `r * n == 100 w`,
      lies between 0 and 100. */
  lemma ScaledShareBounds(r: real, n: real, w: real)
    requires 0.0 < n && 0.0 <= w <= n && r * n == w * 100.0
    ensures 0.0 <= r <= 100.0
  {
    assert (100.0 - r) * n == 100.0 * (n - w);
  }

  /** The daily counters reset at most once per calendar day: after an
      update, a second update on the same day keeps the counters it finds. */
  lemma RolloverOncePerDay(a: Account, ts1: int, bar1: Bar, ts2: int)
    requires SameDay(ts1, ts2)
    ensures var s := Update(a, ts1, bar1).state; Rollover(s.tally, s.lastBarDate, ts2) == s.tally
  {
  }

  /** The first update of a new day resets the daily counters before it
      looks at the trade: with no live trade, with a live trade the bar
      does not fill, and on a TypeError for a missing stop or target, the
      daily counters end at zero and the totals are kept; a fill on that
      bar is recorded on top of the reset counters. */
  lemma RolloverOnNewDay(a: Account, ts: int, bar: Bar)
    requires a.lastBarDate.Some? && a.lastBarDate.value != 0 && !SameDay(a.lastBarDate.value, ts)
    ensures var s := Update(a, ts, bar).state;
      (a.trade.None?
       || Update(a, ts, bar).raised == Some(TypeError)
       || (a.trade.value.stop.Some? && !StopHit(a.trade.value.side, bar, a.trade.value.stop.value)
           && a.trade.value.tp.Some? && !TargetHit(a.trade.value.side, bar, a.trade.value.tp.value))) ==>
      && s.tally.dailyWon == s.tally.dailyLost == s.tally.dailyEven == s.tally.dailyTrades == 0
      && s.tally.totalWon == a.tally.totalWon && s.tally.totalLost == a.tally.totalLost
      && s.tally.totalEven == a.tally.totalEven
    ensures var s := Update(a, ts, bar);
      s.Ok() && a.trade.Some? && |s.state.trades| == |a.trades| + 1 && s.state.trades[|a.trades|].result.Some? ==>
      s.state.tally == a.tally.ResetDaily().Record(Classify(s.state.trades[|a.trades|].result.value.profit))
  {
  }

  /** `tightenstop` applied once per price, stopping at the first
      exception. */
  function TightenAll(a: Account, prices: seq<real>): Step<Account>
    decreases |prices|
  {
    if |prices| == 0 then Step(a, None)
    else
      var s := TightenStop(a, prices[0]);
      if s.Ok() then TightenAll(s.state, prices[1..]) else s
  }

  /** Over any sequence of calls a long's stop ends at or above where it
      started and at or above every price offered, and a short's at or
      below; the stop never moves against the position. */
  lemma {:induction false} TightenAllRatchets(a: Account, prices: seq<real>)
    requires a.trade.Some? && a.trade.value.stop.Some?
    decreases |prices|
    ensures var s := TightenAll(a, prices);
      && s.Ok() && s.state.trade.Some? && s.state.trade.value.stop.Some?
      && s.state.trade.value.side == a.trade.value.side
      && (a.trade.value.side == Long ==>
            && a.trade.value.stop.value <= s.state.trade.value.stop.value
            && forall i :: 0 <= i < |prices| ==> prices[i] <= s.state.trade.value.stop.value)
      && (a.trade.value.side == Short ==>
            && s.state.trade.value.stop.value <= a.trade.value.stop.value
            && forall i :: 0 <= i < |prices| ==> s.state.trade.value.stop.value <= prices[i])
  {
    if |prices| > 0 {
      var s := TightenStop(a, prices[0]);
      TightenAllRatchets(s.state, prices[1..]);
      var r := TightenAll(a, prices);
      assert r == TightenAll(s.state, prices[1..]);
      forall i | 0 < i < |prices|
        ensures a.trade.value.side == Long ==> prices[i] <= r.state.trade.value.stop.value
        ensures a.trade.value.side == Short ==> r.state.trade.value.stop.value <= prices[i]
      {
        assert prices[i] == prices[1..][i - 1];
      }
    }
  }

  // ---------------------------------------------------------------------
  // the account's unit tests, on exact values

  /** Long at 50000 with stop 49000 risking 5 % of a balance of 1: size
      122500 and an entry taker fee of 0.0018375. */
  lemma ExampleOpenLong()
    ensures var s := Open(NewAccount(1.0), Long, 50000.0, Some(49000.0), Some(51000.0), 5.0);
      && s.Ok() && s.state.trade.Some?
      && s.state.trade.value.size == 122500.0
      && s.state.trade.value.side == Long && s.state.trade.value.entry == 50000.0
      && s.state.trade.value.pnl == -0.0018375
  {
    var s := Open(NewAccount(1.0), Long, 50000.0, Some(49000.0), Some(51000.0), 5.0);
    var t := s.state.trade.value;
    assert 1.0 / 50000.0 - 1.0 / 49000.0 == -1.0 / 2450000.0;
    assert t.size * (1.0 / 2450000.0) == 0.05;
  }

  /** Closing that trade at 51000 (a maker fill) realises a profit that
      prints as 0.04680221 at eight decimals, and the balance moves by it. */
  lemma ExampleCloseWin()
    ensures var s := Close(Open(NewAccount(1.0), Long, 50000.0, Some(49000.0), Some(51000.0), 5.0).state, 51000.0);
      && s.Ok() && |s.state.trades| == 1 && s.state.trades[0].exit == Some(51000.0)
      && s.state.trades[0].result.Some?
      && 0.046802205 <= s.state.trades[0].result.value.profit < 0.046802215
      && s.state.balance == 1.0 + s.state.trades[0].result.value.profit
      && 4.675 <= Percent(1.0, s.state.balance) < 4.685
  {
    ExampleOpenLong();
    var o := Open(NewAccount(1.0), Long, 50000.0, Some(49000.0), Some(51000.0), 5.0);
    var t := o.state.trade.value;
    assert InversePnl(Long, 50000.0, 51000.0, 122500.0) == 122500.0 / 2550000.0;
    assert FillFee(122500.0, 51000.0, true) == 122500.0 / 51000.0 * MakerFee;
  }

  /** Long at 10000 with stop 8000: size 2000; closing at the stop loses
      0.0500875, leaving a balance of 0.9499125. */
  lemma ExampleCloseLoss()
    ensures var o := Open(NewAccount(1.0), Long, 10000.0, Some(8000.0), Some(12000.0), 5.0);
      var s := Close(o.state, 8000.0);
      && o.Ok() && o.state.trade.Some? && o.state.trade.value.size == 2000.0
      && s.Ok() && |s.state.trades| == 1 && s.state.trades[0].exit == Some(8000.0)
      && s.state.trades[0].result.Some?
      && s.state.trades[0].result.value.profit == -0.0500875
      && s.state.balance == 0.9499125
      && -5.015 <= Percent(1.0, s.state.balance) < -5.005
  {
    var o := Open(NewAccount(1.0), Long, 10000.0, Some(8000.0), Some(12000.0), 5.0);
    assert 1.0 / 10000.0 - 1.0 / 8000.0 == -1.0 / 40000.0;
    assert o.state.trade.value.size * (1.0 / 40000.0) == 0.05;
    assert InversePnl(Long, 10000.0, 8000.0, 2000.0) == -0.05;
  }
}
