/** The strategy engine's pure rules: signal resolution from the indicator
    columns of a row, the no-trade-hours filter, the daily risk gate, the
    bucketing of a minute timestamp to its higher-timeframe bar, and the
    forward-filled daily open. */
module Engine {
  import opened Wrappers
  import opened Utils
  import opened Accounts

  /** One indicator value of a row: true, false, `None`, or the NaN a
      left join leaves where the higher-timeframe table has no row. NaN is
      truthy in Python and compares unequal to both `None` and `True`. */
  datatype Tri = True | False | Unknown | NaN

  datatype Signal = GoLong | GoShort | NoSignal

  /** Every indicator is truthy (Python's `all`): true or NaN. */
  predicate AllTrue(signals: seq<Tri>) {
    forall i :: 0 <= i < |signals| ==> signals[i] == True || signals[i] == NaN
  }

  /** No indicator is `None` or `True`: each is false or NaN. */
  predicate AllFalse(signals: seq<Tri>) {
    forall i :: 0 <= i < |signals| ==> signals[i] == False || signals[i] == NaN
  }

  /** The `go_short` scan: starts true and is cleared by any `None` or
      true value. */
  function GoShortScan(signals: seq<Tri>): (r: bool)
    ensures r <==> AllFalse(signals)
  {
    if |signals| == 0 then true
    else
      var rest := GoShortScan(signals[..|signals| - 1]);
      var last := signals[|signals| - 1];
      if last == Unknown || last == True then false else rest
  }

  /** `_check_signal`: long when every indicator is truthy and the price
      opens above the daily open, short when no indicator is `None` or true
      and it opens below; a missing daily open (before the first day start)
      compares false both ways. */
  function CheckSignal(signals: seq<Tri>, open: real, dailyOpen: Option<real>): (r: Signal)
    ensures r == GoLong <==> AllTrue(signals) && dailyOpen.Some? && open > dailyOpen.value
    ensures r == GoShort <==>
      !(AllTrue(signals) && dailyOpen.Some? && open > dailyOpen.value)
      && AllFalse(signals) && dailyOpen.Some? && open < dailyOpen.value
  {
    if AllTrue(signals) && dailyOpen.Some? && open > dailyOpen.value then GoLong
    else if GoShortScan(signals) && dailyOpen.Some? && open < dailyOpen.value then GoShort
    else NoSignal
  }

  /** A `None` indicator blocks both directions, and so does a price
      equal to the daily open. */
  lemma CheckSignalBlocked(signals: seq<Tri>, open: real, dailyOpen: Option<real>)
    ensures (exists i :: 0 <= i < |signals| && signals[i] == Unknown) ==> CheckSignal(signals, open, dailyOpen) == NoSignal
    ensures dailyOpen == Some(open) ==> CheckSignal(signals, open, dailyOpen) == NoSignal
  {
  }

  /** A NaN indicator blocks neither direction: an indicator column that
      is NaN throughout lets the price against the daily open alone decide
      the side, and a NaN never changes the signal of the others. */
  lemma NaNPassesBothScans(signals: seq<Tri>, open: real, dailyOpen: real)
    ensures (forall i :: 0 <= i < |signals| ==> signals[i] == NaN) ==>
      && (open > dailyOpen ==> CheckSignal(signals, open, Some(dailyOpen)) == GoLong)
      && (open < dailyOpen ==> CheckSignal(signals, open, Some(dailyOpen)) == GoShort)
    ensures CheckSignal(signals + [NaN], open, Some(dailyOpen)) == CheckSignal(signals, open, Some(dailyOpen))
  {
    var t := signals + [NaN];
    assert forall i :: 0 <= i < |signals| ==> t[i] == signals[i];
    assert AllTrue(t) <==> AllTrue(signals);
    assert AllFalse(t) <==> AllFalse(signals);
  }

  /** `_check_time`: the bar may trade iff its hour is not a no-trade
      hour. */
  predicate CheckTime(ts: int, noTradeHours: seq<int>) {
    HourOf(ts) !in noTradeHours
  }

  /** The time filter depends on the hour of day alone: a bar is blocked
      iff some listed hour equals its hour, the same bar a day later is
      treated alike, and hours outside 0..23 never block anything. */
  lemma CheckTimeByHour(ts: int, noTradeHours: seq<int>)
    ensures CheckTime(ts, noTradeHours) <==> forall k :: 0 <= k < |noTradeHours| ==> noTradeHours[k] != HourOf(ts)
    ensures CheckTime(ts + SecondsPerDay, noTradeHours) == CheckTime(ts, noTradeHours)
    ensures (forall k :: 0 <= k < |noTradeHours| ==> !(0 <= noTradeHours[k] < 24)) ==> CheckTime(ts, noTradeHours)
  {
    DivModUnique(ts + SecondsPerDay, SecondsPerHour, ts / SecondsPerHour + 24, ts % SecondsPerHour);
    DivModUnique(ts / SecondsPerHour + 24, 24, ts / SecondsPerHour / 24 + 1, HourOf(ts));
  }

  /** `_check_risk_management` of the engine: no win yet today, at most
      three losses today, and no live trade. */
  predicate RiskGate(a: Account) {
    a.tally.dailyWon < 1 && a.tally.dailyLost <= 3 && a.trade.None?
  }

  /** `htf_1h_ts`: the timestamp moved back to minute 0 of its hour. */
  function Htf1h(ts: int): (r: int)
    ensures r <= ts < r + SecondsPerHour
    ensures MinuteOf(r) == 0 && r % 60 == ts % 60
  {
    var m := MinuteOf(ts);
    DivModUnique(ts - m * 60, 60, ts / 60 - m, ts % 60);
    ts - m * 60
  }

  /** `htf_15m_ts`: the timestamp moved back to the last quarter-hour
      minute. */
  function Htf15m(ts: int): (r: int)
    ensures r <= ts < r + 15 * SecondsPerMinute
    ensures MinuteOf(r) % 15 == 0 && MinuteOf(r) == MinuteOf(ts) / 15 * 15 && r % 60 == ts % 60
  {
    var m := MinuteOf(ts);
    DivModUnique(ts - (m - m / 15 * 15) * 60, 60, ts / 60 - (m - m / 15 * 15), ts % 60);
    ts - (m - m / 15 * 15) * 60
  }

  /** Bucketing is idempotent, a bar's quarter-hour bucket lies in the
      same hour bucket as the bar, and an hour start is its own quarter-hour
      bucket. */
  lemma BucketsNest(ts: int)
    ensures Htf1h(Htf1h(ts)) == Htf1h(ts)
    ensures Htf15m(Htf15m(ts)) == Htf15m(ts)
    ensures Htf1h(Htf15m(ts)) == Htf1h(ts)
    ensures Htf1h(ts) <= Htf15m(ts)
  {
    var m := MinuteOf(ts);
    var q := Htf15m(ts);
    assert MinuteOf(Htf1h(ts)) == 0;
    assert q == ts - (m % 15) * 60;
    assert Htf1h(q) == q - MinuteOf(q) * 60;
  }

  /** The daily open of row `i`: the open of the latest row at or before
      it that starts a day, or none when no earlier row does. */
  function LatestDayOpen(bars: seq<Bar>, i: nat): (r: Option<real>)
    requires i < |bars|
    ensures r.Some? ==> exists j :: 0 <= j <= i && StartOfDay(bars[j].ts) && r == Some(bars[j].open)
    ensures StartOfDay(bars[0].ts) ==> r.Some?
  {
    if StartOfDay(bars[i].ts) then Some(bars[i].open)
    else if i == 0 then None
    else LatestDayOpen(bars, i - 1)
  }

  /** The forward-filled daily open is defined by the latest day start: it
      exists iff some row at or before `i` starts a day, and then it is the
      open of the last such row. */
  lemma {:induction false} LatestDayOpenSpec(bars: seq<Bar>, i: nat)
    requires i < |bars|
    ensures LatestDayOpen(bars, i).Some? <==> exists j :: 0 <= j <= i && StartOfDay(bars[j].ts)
    ensures LatestDayOpen(bars, i).Some? ==>
      exists j :: 0 <= j <= i && StartOfDay(bars[j].ts) && LatestDayOpen(bars, i) == Some(bars[j].open)
        && forall k :: j < k <= i ==> !StartOfDay(bars[k].ts)
  {
    if !StartOfDay(bars[i].ts) && i > 0 {
      LatestDayOpenSpec(bars, i - 1);
      if LatestDayOpen(bars, i).Some? {
        var j :| 0 <= j <= i - 1 && StartOfDay(bars[j].ts) && LatestDayOpen(bars, i - 1) == Some(bars[j].open)
          && forall k :: j < k <= i - 1 ==> !StartOfDay(bars[k].ts);
        assert forall k :: j < k <= i ==> !StartOfDay(bars[k].ts);
      }
    }
  }

  /** The `daily_open` column: each row's open where the row starts a day,
      forward-filled down the table. */
  method ForwardFillDailyOpen(bars: seq<Bar>) returns (opens: seq<Option<real>>)
    ensures |opens| == |bars|
    ensures forall i :: 0 <= i < |bars| ==> opens[i] == LatestDayOpen(bars, i)
  {
    opens := [];
    var last: Option<real> := None;
    var k := 0;
    while k < |bars|
      invariant 0 <= k <= |bars| && |opens| == k
      invariant forall i :: 0 <= i < k ==> opens[i] == LatestDayOpen(bars, i)
      invariant k > 0 ==> last == LatestDayOpen(bars, k - 1)
      invariant k == 0 ==> last == None
    {
      if StartOfDay(bars[k].ts) {
        last := Some(bars[k].open);
      }
      opens := opens + [last];
      k := k + 1;
    }
  }
}
