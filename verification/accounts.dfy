/** The account base of the simulator: the fee schedule, the record of a
    trade and of the account that owns it, the daily and total counters,
    and the inverse-contract arithmetic (profit in the base currency from
    reciprocal prices, and position sizing by stop risk). */
module Accounts {
  import opened Wrappers
  import opened PyRuntime
  import opened Utils

  datatype Side = Long | Short

  /** One price bar as the account sees it. */
  datatype Bar = Bar(ts: int, open: real, high: real, low: real, close: real)

  /** Taker fee 0.075 %, maker fee 0.025 %. */
  const TakerFee: real := 0.075 / 100.0
  const MakerFee: real := 0.025 / 100.0

  /** What a closed trade records. */
  datatype TradeResult = TradeResult(
    stopped: bool,
    exit: real,
    profit: real,
    percent: real,
    before: real,
    after: real)

  /** A position: live while `result` is `None`, closed once it is set. */
  datatype Trade = Trade(
    side: Side,
    entry: real,
    stop: Option<real>,
    tp: Option<real>,
    risk: real,
    size: real,
    pnl: real,
    openTs: Option<int>,
    closeTs: Option<int>,
    exit: Option<real>,
    result: Option<TradeResult>,
    initialStop: Option<real>)

  datatype Outcome = Won | Lost | Even

  /** The outcome of a realised profit: exact zero is its own outcome. */
  function Classify(pnl: real): (o: Outcome)
    ensures o == Won <==> pnl > 0.0
    ensures o == Lost <==> pnl < 0.0
    ensures o == Even <==> pnl == 0.0
  {
    if pnl > 0.0 then Won else if pnl < 0.0 then Lost else Even
  }

  /** The daily counters (reset at a day rollover) and the totals. */
  datatype Tally = Tally(
    dailyWon: nat,
    dailyLost: nat,
    dailyEven: nat,
    dailyTrades: nat,
    totalWon: nat,
    totalLost: nat,
    totalEven: nat)
  {
    /** Zero the four daily counters; the totals are kept. */
    function ResetDaily(): (t: Tally)
      ensures t.dailyWon == t.dailyLost == t.dailyEven == t.dailyTrades == 0
      ensures t.totalWon == totalWon && t.totalLost == totalLost && t.totalEven == totalEven
    {
      this.(dailyWon := 0, dailyLost := 0, dailyEven := 0, dailyTrades := 0)
    }

    /** Count one more trade opened today. */
    function CountOpen(): (t: Tally)
      ensures t.dailyTrades == dailyTrades + 1
      ensures t.(dailyTrades := dailyTrades) == this
    {
      this.(dailyTrades := dailyTrades + 1)
    }

    /** Count a closed trade under its outcome, today and in total. */
    function Record(o: Outcome): (t: Tally)
      ensures t.dailyWon + t.dailyLost + t.dailyEven == dailyWon + dailyLost + dailyEven + 1
      ensures t.totalWon + t.totalLost + t.totalEven == totalWon + totalLost + totalEven + 1
      ensures t.dailyWon == dailyWon + (if o == Won then 1 else 0)
      ensures t.totalWon == totalWon + (if o == Won then 1 else 0)
      ensures t.dailyLost == dailyLost + (if o == Lost then 1 else 0)
      ensures t.totalLost == totalLost + (if o == Lost then 1 else 0)
      ensures t.dailyEven == dailyEven + (if o == Even then 1 else 0)
      ensures t.totalEven == totalEven + (if o == Even then 1 else 0)
      ensures t.dailyTrades == dailyTrades
    {
      match o
      case Won => this.(dailyWon := dailyWon + 1, totalWon := totalWon + 1)
      case Lost => this.(dailyLost := dailyLost + 1, totalLost := totalLost + 1)
      case Even => this.(dailyEven := dailyEven + 1, totalEven := totalEven + 1)
    }
  }

  const ZeroTally := Tally(0, 0, 0, 0, 0, 0, 0)

  /** The per-bar observation flags of the last transition. */
  datatype Flags = Flags(stopped: bool, closed: bool, won: bool, lost: bool, even: bool)

  const Cleared := Flags(false, false, false, false, false)

  /** The flags a close leaves: closed, and exactly the outcome's flag. */
  function CloseFlags(f: Flags, o: Outcome): (g: Flags)
    ensures g.closed && g.stopped == f.stopped
    ensures g.won == (o == Won) && g.lost == (o == Lost) && g.even == (o == Even)
  {
    f.(closed := true, won := o == Won, lost := o == Lost, even := o == Even)
  }

  /** The start of `update`: when the last bar date is set (and not the
      falsy timestamp 0) and lies on another day, the daily counters are
      zeroed. */
  function Rollover(t: Tally, lastBarDate: Option<int>, ts: int): (r: Tally)
    ensures r.totalWon == t.totalWon && r.totalLost == t.totalLost && r.totalEven == t.totalEven
    ensures TruthyInt(lastBarDate) && !SameDay(lastBarDate.value, ts) ==> r == t.ResetDaily()
    ensures !(TruthyInt(lastBarDate) && !SameDay(lastBarDate.value, ts)) ==> r == t
  {
    if TruthyInt(lastBarDate) && !SameDay(lastBarDate.value, ts) then t.ResetDaily() else t
  }

  /** The state `Account.__init__` builds. */
  datatype Account = Account(
    balance: real,
    startBalance: real,
    maxBalance: real,
    maxDrawdown: real,
    trade: Option<Trade>,
    trades: seq<Trade>,
    tally: Tally,
    lastBarDate: Option<int>,
    flags: Flags)

  const DefaultStartBalance: real := 1.0

  /** A fresh account: the balance is the start balance and the maximum
      balance, there is no position and no history, every counter and the
      drawdown are zero. */
  function NewAccount(startBalance: real): (a: Account)
    ensures a.balance == a.startBalance == a.maxBalance == startBalance
    ensures a.trade == None && a.trades == [] && a.lastBarDate == None
    ensures a.tally == ZeroTally && a.maxDrawdown == 0.0 && a.flags == Cleared
  {
    Account(startBalance, startBalance, startBalance, 0.0, None, [], ZeroTally, None, Cleared)
  }

  // ---------------------------------------------------------------------
  // inverse-contract arithmetic

  /** `_calc_pnl_xbt`: the profit, in the base currency, of `size`
      contracts from `entry` to `exit`. */
  function InversePnl(side: Side, entry: real, exit: real, size: real): (r: real)
    requires entry != 0.0 && exit != 0.0
    ensures entry == exit ==> r == 0.0
  {
    var exit1 := 1.0 / exit;
    var entry1 := 1.0 / entry;
    if side == Short then (exit1 - entry1) * size else (entry1 - exit1) * size
  }

  /** With positive prices and size, a long profits iff the exit is above
      the entry and a short profits iff it is below; each loses iff the
      price moved the other way. */
  lemma InversePnlSign(side: Side, entry: real, exit: real, size: real)
    requires 0.0 < entry && 0.0 < exit && 0.0 < size
    ensures InversePnl(side, entry, exit, size) > 0.0 <==> (if side == Long then exit > entry else exit < entry)
    ensures InversePnl(side, entry, exit, size) < 0.0 <==> (if side == Long then exit < entry else exit > entry)
  {
    ReciprocalOrder(entry, exit);
    ReciprocalOrder(exit, entry);
    PositiveFactorSign(1.0 / exit - 1.0 / entry, size);
    PositiveFactorSign(1.0 / entry - 1.0 / exit, size);
  }

  /** Reciprocals reverse the order of positive prices. */
  lemma ReciprocalOrder(a: real, b: real)
    requires 0.0 < a && 0.0 < b
    ensures 1.0 / a < 1.0 / b <==> b < a
  {
    var d := 1.0 / b - 1.0 / a;
    assert d * (a * b) == a - b;
    PositiveFactorSign(d, a * b);
  }

  lemma PositiveFactorSign(d: real, s: real)
    requires 0.0 < s
    ensures d * s > 0.0 <==> d > 0.0
  {
  }

  /** A short is the exact negation of the long on the same prices, and
      equals the long with entry and exit swapped. */
  lemma InversePnlSides(entry: real, exit: real, size: real)
    requires entry != 0.0 && exit != 0.0
    ensures InversePnl(Short, entry, exit, size) == -InversePnl(Long, entry, exit, size)
    ensures InversePnl(Short, entry, exit, size) == InversePnl(Long, exit, entry, size)
  {
  }

  /** The stop a sizing uses: a missing or zero stop defaults to 98 % of
      the entry. */
  function EffectiveStop(entry: real, stop: Option<real>): real {
    if Truthy(stop) then stop.value else entry * 0.98
  }

  /** `_size_by_stop_risk`: the size that loses exactly `risk` percent of
      the balance, in inverse-price terms, between entry and stop. Both
      branches of the source compute the same quotient. Python raises
      ZeroDivisionError for a zero entry and for a stop equal to the
      entry. */
  function SizeByStopRisk(balance: real, risk: real, entry: real, stop: Option<real>): (r: real)
    requires entry != 0.0 && EffectiveStop(entry, stop) != entry
    ensures r * Abs(1.0 / entry - 1.0 / EffectiveStop(entry, stop)) == balance * (risk / 100.0)
    ensures balance * risk >= 0.0 ==> r >= 0.0
  {
    var s := EffectiveStop(entry, stop);
    var sizeRisk := balance * (risk / 100.0);
    var stop1 := 1.0 / s;
    var entry1 := 1.0 / entry;
    if s < entry then sizeRisk / Abs(entry1 - stop1) else sizeRisk / Abs(stop1 - entry1)
  }

  /** With the stop on the losing side of a positive entry, closing a
      stop-risk-sized position at its stop loses exactly `risk` percent of
      the balance, before fees. */
  lemma LossAtStopIsRisk(side: Side, balance: real, risk: real, entry: real, stop: real)
    requires 0.0 < stop && 0.0 < entry
    requires if side == Long then stop < entry else entry < stop
    ensures InversePnl(side, entry, stop, SizeByStopRisk(balance, risk, entry, Some(stop)))
         == -(balance * (risk / 100.0))
  {
    var size := SizeByStopRisk(balance, risk, entry, Some(stop));
    var d := 1.0 / entry - 1.0 / stop;
    if side == Long {
      assert 1.0 / entry < 1.0 / stop;
      assert Abs(d) == -d;
    } else {
      assert 1.0 / stop < 1.0 / entry;
      assert Abs(d) == d;
    }
  }

  /** The fee of one fill, as a change of profit: a maker fill earns the
      maker rebate, a taker fill pays the taker fee, both on `size / price`. */
  function FillFee(size: real, price: real, isMaker: bool): (r: real)
    requires price != 0.0
    ensures 0.0 <= size && 0.0 < price ==> (if isMaker then 0.0 <= r else r <= 0.0)
    ensures isMaker ==> r * TakerFee == -FillFee(size, price, false) * MakerFee
  {
    if isMaker then size / price * MakerFee else -(size / price * TakerFee)
  }

  // ---------------------------------------------------------------------
  // stop and target tests shared by both account variants

  /** The bar reaches the stop: a long's low at or below it, a short's high
      at or above it. */
  predicate StopHit(side: Side, bar: Bar, stop: real) {
    if side == Long then bar.low <= stop else bar.high >= stop
  }

  /** The bar reaches the take-profit: a long's high at or above it, a
      short's low at or below it. */
  predicate TargetHit(side: Side, bar: Bar, tp: real) {
    if side == Long then bar.high >= tp else bar.low <= tp
  }

  /** `tightenstop` on one stop: the more favourable of the current stop
      and `price`. Python's `max`/`min` against a missing stop raises
      TypeError, modelled as `None`. */
  function Ratchet(side: Side, stop: Option<real>, price: real): (r: Option<real>)
    ensures r.Some? <==> stop.Some?
    ensures r.Some? && side == Long ==> r.value >= stop.value && r.value >= price
    ensures r.Some? && side == Short ==> r.value <= stop.value && r.value <= price
    ensures r.Some? ==> r.value == stop.value || r.value == price
  {
    match stop
    case None => None
    case Some(s) => Some(if side == Long then Max(s, price) else Min(s, price))
  }
}
