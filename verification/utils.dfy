/** The arithmetic and calendar helpers of the utilities module: percentage
    change, the start-of-period predicates and the same-day test used for
    the daily reset, and the interval-string conversions.

    Calendar fields are taken in UTC: a timestamp is an integer number of
    seconds, its day number is `ts / 86400`, its hour `(ts / 3600) % 24`
    and its minute `(ts / 60) % 60` (Dafny's division floors, as Python's
    does for these positive divisors). A calendar date is represented by
    its day number. */
module Utils {
  import opened Wrappers
  import opened PyRuntime

  // ---------------------------------------------------------------------
  // percent

  /** Percentage change from `f` to `t`; Python raises ZeroDivisionError at
      `f == 0`, which is why that is excluded. */
  function Percent(f: real, t: real): (r: real)
    requires f != 0.0
    ensures f + f * r / 100.0 == t
    ensures r == 0.0 <==> t == f
    ensures f > 0.0 ==> (r > 0.0 <==> t > f) && (r < 0.0 <==> t < f)
  {
    (t - f) / f * 100.0
  }

  // ---------------------------------------------------------------------
  // calendar fields (UTC)

  const SecondsPerMinute: int := 60
  const SecondsPerHour: int := 3600
  const SecondsPerDay: int := 86400

  function DayNumber(ts: int): int {
    ts / SecondsPerDay
  }

  function HourOf(ts: int): (h: int)
    ensures 0 <= h < 24
  {
    (ts / SecondsPerHour) % 24
  }

  function MinuteOf(ts: int): (m: int)
    ensures 0 <= m < 60
  {
    (ts / SecondsPerMinute) % 60
  }

  /** Both timestamps fall on the same calendar day. */
  predicate SameDay(first: int, second: int) {
    DayNumber(first) == DayNumber(second)
  }

  predicate StartOfHour(ts: int) {
    MinuteOf(ts) == 0
  }

  predicate StartOfHour4(ts: int) {
    MinuteOf(ts) == 0 && HourOf(ts) % 4 == 0
  }

  predicate StartOfMin15(ts: int) {
    MinuteOf(ts) % 15 == 0
  }

  predicate StartOfDay(ts: int) {
    HourOf(ts) == 0 && MinuteOf(ts) == 0
  }

  /** Division with remainder is unique. */
  lemma DivModUnique(n: int, k: int, d: int, m: int)
    requires 0 < k && 0 <= m < k && n == k * d + m
    ensures n / k == d && n % k == m
  {
    var q, r := n / k, n % k;
    assert k * (q - d) == m - r;
    if q > d {
      MulAtLeastFactor(k, q - d);
    } else if q < d {
      MulAtLeastFactor(k, d - q);
    }
  }

  lemma {:induction false} MulAtLeastFactor(k: int, e: int)
    requires 0 < k && 1 <= e
    ensures k * e >= k
  {
    if e > 1 {
      assert k * e == k * (e - 1) + k;
      MulAtLeastFactor(k, e - 1);
    }
  }

  /** The minute of the hour is read off the offset within the hour. */
  lemma MinuteFromHourOffset(ts: int)
    ensures MinuteOf(ts) == (ts % 3600) / 60
    ensures ts % 60 == (ts % 3600) % 60
  {
    var q, r := ts / 3600, ts % 3600;
    var a, b := r / 60, r % 60;
    DivModUnique(ts, 60, 60 * q + a, b);
    DivModUnique(60 * q + a, 60, q, a);
  }

  /** The hour of the day is read off the offset within the day. */
  lemma HourFromDayOffset(ts: int)
    ensures HourOf(ts) == (ts % 86400) / 3600
    ensures ts % 3600 == (ts % 86400) % 3600
  {
    var q, r := ts / 86400, ts % 86400;
    var a, b := r / 3600, r % 3600;
    DivModUnique(ts, 3600, 24 * q + a, b);
    DivModUnique(24 * q + a, 24, q, a);
  }

  /** A bar starts an hour iff it lies in the first minute of the hour. */
  lemma StartOfHourIff(ts: int)
    ensures StartOfHour(ts) <==> ts % 3600 < 60
  {
    MinuteFromHourOffset(ts);
  }

  /** A bar starts a day iff it lies in the first minute of the day. */
  lemma StartOfDayIff(ts: int)
    ensures StartOfDay(ts) <==> ts % 86400 < 60
  {
    MinuteFromHourOffset(ts);
    HourFromDayOffset(ts);
  }

  /** A bar starts a quarter hour iff it lies in the first minute of it. */
  lemma StartOfMin15Iff(ts: int)
    ensures StartOfMin15(ts) <==> ts % 900 < 60
  {
    MinuteFromHourOffset(ts);
    var r := ts % 3600;
    var a, b := r / 60, r % 60;
    DivModUnique(ts, 900, 4 * (ts / 3600) + a / 15, 60 * (a % 15) + b);
  }

  /** The start-of-period predicates nest: a day start is a four-hour
      start, a four-hour start is an hour start, an hour start is a
      quarter-hour start. */
  lemma StartOfNesting(ts: int)
    ensures StartOfDay(ts) ==> StartOfHour4(ts)
    ensures StartOfHour4(ts) ==> StartOfHour(ts)
    ensures StartOfHour(ts) ==> StartOfMin15(ts)
  {
  }

  /** `sameday` is an equivalence, and two timestamps share a day iff they
      share the midnight that begins it. */
  lemma SameDayEquivalence(a: int, b: int, c: int)
    ensures SameDay(a, a)
    ensures SameDay(a, b) <==> SameDay(b, a)
    ensures SameDay(a, b) && SameDay(b, c) ==> SameDay(a, c)
    ensures SameDay(a, b) <==> a - a % SecondsPerDay == b - b % SecondsPerDay
  {
  }

  // ---------------------------------------------------------------------
  // interval strings

  /** Seconds per unit letter of an interval string; the lookup is
      case-sensitive. */
  function SecondsPerUnit(unit: char): Option<int> {
    if unit == 'm' then Some(60)
    else if unit == 'h' then Some(60 * 60)
    else if unit == 'd' then Some(24 * 60 * 60)
    else if unit == 'w' then Some(7 * 24 * 60 * 60)
    else None
  }

  /** `interval_to_milliseconds`: `None` for an unknown unit or a prefix
      `int()` rejects; the empty string fails with IndexError at
      `interval[-1]`. */
  function IntervalToMs(interval: string): (r: Result<Option<int>, PyError>)
    ensures r.Failure? <==> |interval| == 0
    ensures r.Success? && r.value.Some? ==> SecondsPerUnit(interval[|interval| - 1]).Some?
    ensures |interval| > 0 && ParseInt(interval[..|interval| - 1]).None? ==> r == Success(None)
  {
    if |interval| == 0 then Failure(IndexError)
    else
      match SecondsPerUnit(interval[|interval| - 1])
      case None => Success(None)
      case Some(seconds) =>
        match ParseInt(interval[..|interval| - 1])
        case None => Success(None)
        case Some(n) => Success(Some(n * seconds * 1000))
  }

  /** Every printed count followed by a known unit converts to that many
      units in milliseconds. */
  lemma IntervalToMsOfCount(n: int, unit: char)
    requires SecondsPerUnit(unit).Some?
    ensures IntervalToMs(ShowInt(n) + [unit]) == Success(Some(n * SecondsPerUnit(unit).value * 1000))
  {
    var s := ShowInt(n) + [unit];
    assert s[..|s| - 1] == ShowInt(n);
    ParseShowInt(n);
  }

  /** A string whose last character is not a unit letter converts to
      `None`. */
  lemma IntervalToMsUnknownUnit(interval: string)
    requires |interval| > 0 && SecondsPerUnit(interval[|interval| - 1]).None?
    ensures IntervalToMs(interval) == Success(None)
  {
  }

  /** The value of an entry of the Bybit interval table: a number of
      minutes, or the daily marker `'D'`. */
  datatype BybitInterval = Minutes(minutes: int) | Daily

  /** `interval_bybit_notation`: the fixed table; any other key raises
      KeyError. */
  function BybitNotation(interval: string): (r: Result<BybitInterval, PyError>)
    ensures r.Success? <==> interval in {"1m", "3m", "5m", "15m", "30m", "1h", "2h", "4h", "D"}
    ensures r == Success(Daily) <==> interval == "D"
  {
    if interval == "1m" then Success(Minutes(1))
    else if interval == "3m" then Success(Minutes(3))
    else if interval == "5m" then Success(Minutes(5))
    else if interval == "15m" then Success(Minutes(15))
    else if interval == "30m" then Success(Minutes(30))
    else if interval == "1h" then Success(Minutes(60))
    else if interval == "2h" then Success(Minutes(120))
    else if interval == "4h" then Success(Minutes(240))
    else if interval == "D" then Success(Daily)
    else Failure(KeyError)
  }

  /** A digit string followed by a known unit converts to its value in
      that unit, in milliseconds. */
  lemma IntervalToMsOfDigits(d: string, unit: char)
    requires |d| > 0 && AllDigits(d) && SecondsPerUnit(unit).Some?
    ensures IntervalToMs(d + [unit]) == Success(Some(DigitsValue(d) * SecondsPerUnit(unit).value * 1000))
  {
    var s := d + [unit];
    assert s[..|s| - 1] == d;
    ParseDigits(d);
  }

  /** A one- or two-digit count followed by a known unit converts to that
      many units in milliseconds. */
  lemma IntervalToMsOfSmallCount(interval: string, n: nat)
    requires 0 < n < 100 && |interval| >= 2 && SecondsPerUnit(interval[|interval| - 1]).Some?
    requires interval[..|interval| - 1] == ShowNat(n)
    ensures IntervalToMs(interval) == Success(Some(n * SecondsPerUnit(interval[|interval| - 1]).value * 1000))
  {
    var d := interval[..|interval| - 1];
    assert interval == d + [interval[|interval| - 1]];
    DigitsValueShowNat(n);
    IntervalToMsOfDigits(d, interval[|interval| - 1]);
  }

  /** The two interval tables agree: every minute entry of the Bybit table
      is the millisecond conversion divided by 60000, and the daily key
      `'D'` has no millisecond conversion because the unit lookup is
      case-sensitive. */
  lemma BybitNotationAgreesWithIntervalToMs(interval: string)
    ensures BybitNotation(interval).Success? && BybitNotation(interval).value.Minutes? ==>
      IntervalToMs(interval) == Success(Some(BybitNotation(interval).value.minutes * 60 * 1000))
    ensures interval == "D" ==> IntervalToMs(interval) == Success(None)
  {
    if interval == "1m" {
      IntervalToMsOfSmallCount(interval, 1);
    } else if interval == "3m" {
      IntervalToMsOfSmallCount(interval, 3);
    } else if interval == "5m" {
      IntervalToMsOfSmallCount(interval, 5);
    } else if interval == "15m" {
      IntervalToMsOfSmallCount(interval, 15);
    } else if interval == "30m" {
      IntervalToMsOfSmallCount(interval, 30);
    } else if interval == "1h" {
      IntervalToMsOfSmallCount(interval, 1);
    } else if interval == "2h" {
      IntervalToMsOfSmallCount(interval, 2);
    } else if interval == "4h" {
      IntervalToMsOfSmallCount(interval, 4);
    }
  }

  /** The conversions of the examples: one minute, four hours, the
      upper-case daily key, and the empty string. */
  lemma IntervalToMsExamples()
    ensures IntervalToMs("1m") == Success(Some(60000))
    ensures IntervalToMs("4h") == Success(Some(14400000))
    ensures IntervalToMs("D") == Success(None)
    ensures IntervalToMs("") == Failure(IndexError)
    ensures IntervalToMs("m") == Success(None)
    ensures IntervalToMs("1.5m") == Success(None)
  {
    assert ShowNat(1) == "1" && ShowNat(4) == "4";
    IntervalToMsOfSmallCount("1m", 1);
    IntervalToMsOfSmallCount("4h", 4);
  }

  // ---------------------------------------------------------------------
  // get_offset

  /** `get_offset`: an `int` (a `bool` is one in Python) converts to its
      integer value; anything else gives 0. */
  function GetOffset(x: PyValue): (r: int)
    ensures x.PyInt? ==> r == x.i
    ensures x.PyBool? ==> r == (if x.b then 1 else 0)
    ensures !x.PyInt? && !x.PyBool? ==> r == 0
  {
    match x
    case PyInt(i) => i
    case PyBool(b) => if b then 1 else 0
    case _ => 0
  }

  /** Python's truthiness of a value `get_offset` accepts: zero and False
      are falsy. */
  predicate IntLikeTruthy(x: PyValue)
    requires x.PyInt? || x.PyBool?
  {
    if x.PyInt? then x.i != 0 else x.b
  }

  /** `get_offset` is the identity on ints, so applying it to its own
      result changes nothing; a non-zero offset comes only from a truthy
      int or True, and a float, even a whole one, a string or None gives 0. */
  lemma GetOffsetIdempotent(x: PyValue)
    ensures GetOffset(PyInt(GetOffset(x))) == GetOffset(x)
    ensures GetOffset(x) != 0 <==> (x.PyInt? || x.PyBool?) && IntLikeTruthy(x)
    ensures GetOffset(PyFloat(3.0)) == 0 && GetOffset(PyStr("3")) == 0 && GetOffset(PyNone) == 0
  {
  }
}
