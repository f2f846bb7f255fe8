/** The pieces of Python's runtime semantics the simulator leans on:
    the exceptions it can raise, truthiness of optional numbers, `max`/`min`
    on two values, `round()` and `int()` on a decimal string. Numbers are
    exact reals; the IEEE-754 behaviour of Python floats is not modelled. */
module PyRuntime {
  import opened Wrappers

  /** The exceptions the modelled code can raise. */
  datatype PyError = ZeroDivisionError | TypeError | KeyError | IndexError

  /** The state of a mutable Python object after a call, together with the
      exception the call raised, if any. Python mutates objects in place, so
      when an exception escapes, `state` holds the mutations made before the
      raise. */
  datatype Step<S> = Step(state: S, raised: Option<PyError>) {
    predicate Ok() {
      raised.None?
    }
  }

  /** A dynamically typed Python value, as far as `isinstance` cares. */
  datatype PyValue = PyInt(i: int) | PyBool(b: bool) | PyFloat(f: real) | PyStr(s: string) | PyNone

  /** `if x:` on an optional number: `None` and zero are false. */
  predicate Truthy(x: Option<real>) {
    x.Some? && x.value != 0.0
  }

  /** `if x:` on an optional integer timestamp. */
  predicate TruthyInt(x: Option<int>) {
    x.Some? && x.value != 0
  }

  function Abs(x: real): real {
    if x < 0.0 then -x else x
  }

  /** Python's `max(a, b)`: the first argument unless the second is larger. */
  function Max(a: real, b: real): (r: real)
    ensures a <= r && b <= r && (r == a || r == b)
  {
    if b > a then b else a
  }

  /** Python's `min(a, b)`: the first argument unless the second is smaller. */
  function Min(a: real, b: real): (r: real)
    ensures r <= a && r <= b && (r == a || r == b)
  {
    if b < a then b else a
  }

  // ---------------------------------------------------------------------
  // round()

  /** Python's `round(x)` on an exact value: the nearest integer, ties to
      the even neighbour. */
  function RoundHalfEven(x: real): (n: int)
    ensures -0.5 <= n as real - x <= 0.5
    ensures (n as real - x == 0.5 || x - n as real == 0.5) ==> n % 2 == 0
  {
    var f := x.Floor;
    var frac := x - f as real;
    if frac < 0.5 then f
    else if frac > 0.5 then f + 1
    else if f % 2 == 0 then f
    else f + 1
  }

  /** An integer closer than one half to `x` is the rounded value. */
  lemma RoundHalfEvenUnique(x: real, m: int)
    requires -0.5 < m as real - x < 0.5
    ensures RoundHalfEven(x) == m
  {
  }

  /** Python's `round(x, 2)` on an exact value: the nearest multiple of
      0.01, ties to the even hundredth. */
  function Round2(x: real): (r: real)
    ensures -0.005 <= r - x <= 0.005
    ensures (r * 100.0).Floor as real == r * 100.0
  {
    var n := RoundHalfEven(x * 100.0);
    var r := n as real / 100.0;
    assert r * 100.0 == n as real && (n as real).Floor == n;
    assert -0.5 <= r * 100.0 - x * 100.0 <= 0.5;
    r
  }

  // ---------------------------------------------------------------------
  // int() on a string, and str() on an integer

  /** The ASCII characters Python's `str.strip()` removes. */
  predicate IsSpace(c: char) {
    9 <= c as int <= 13 || 28 <= c as int <= 32
  }

  predicate IsDigit(c: char) {
    '0' <= c <= '9'
  }

  predicate AllDigits(s: string) {
    forall i :: 0 <= i < |s| ==> IsDigit(s[i])
  }

  function DigitValue(c: char): (d: nat)
    requires IsDigit(c)
    ensures d < 10
  {
    c as int - '0' as int
  }

  function DigitChar(d: nat): (c: char)
    requires d < 10
    ensures IsDigit(c) && DigitValue(c) == d
  {
    ('0' as int + d) as char
  }

  function TrimLeft(s: string): (t: string)
    ensures |t| <= |s| && t == s[|s| - |t|..]
    ensures |t| > 0 ==> !IsSpace(t[0])
    ensures |s| > 0 && !IsSpace(s[0]) ==> t == s
  {
    if |s| > 0 && IsSpace(s[0]) then TrimLeft(s[1..]) else s
  }

  function TrimRight(s: string): (t: string)
    ensures |t| <= |s| && t == s[..|t|]
    ensures |t| > 0 ==> !IsSpace(t[|t| - 1])
    ensures |s| > 0 && !IsSpace(s[|s| - 1]) ==> t == s
  {
    if |s| > 0 && IsSpace(s[|s| - 1]) then TrimRight(s[..|s| - 1]) else s
  }

  /** Python's `str.strip()` restricted to ASCII whitespace. */
  function Strip(s: string): string {
    TrimRight(TrimLeft(s))
  }

  /** A string with no whitespace at either end is its own strip. */
  lemma StripUnchanged(s: string)
    requires |s| > 0 && !IsSpace(s[0]) && !IsSpace(s[|s| - 1])
    ensures Strip(s) == s
  {
  }

  /** A string with no whitespace at either end is parsed as it stands. */
  lemma ParseIntOfClean(s: string)
    requires |s| > 0 && !IsSpace(s[0]) && !IsSpace(s[|s| - 1])
    ensures ParseInt(s) == ParseSigned(s)
  {
    StripUnchanged(s);
  }

  /** The digits of a base-10 integer literal as Python's `int()` accepts
      them: at least one digit, with single underscores allowed only
      between two digits. */
  predicate DigitGroup(b: string) {
    DigitsOrUnderscores(b) && GroupShape(b)
  }

  /** A digit, then either nothing or an optional underscore followed by
      another such group. */
  predicate GroupShape(b: string)
    decreases |b|
  {
    && |b| > 0
    && IsDigit(b[0])
    && (|b| == 1 || (if b[1] == '_' then GroupShape(b[2..]) else GroupShape(b[1..])))
  }

  predicate DigitsOrUnderscores(b: string) {
    forall i :: 0 <= i < |b| ==> IsDigit(b[i]) || b[i] == '_'
  }

  function RemoveUnderscores(b: string): (r: string)
    ensures DigitsOrUnderscores(b) ==> AllDigits(r)
    ensures AllDigits(b) ==> r == b
  {
    if |b| == 0 then []
    else if b[0] == '_' then RemoveUnderscores(b[1..])
    else [b[0]] + RemoveUnderscores(b[1..])
  }

  /** The value of a digit string read left to right. */
  function DigitsValue(d: string): nat
    requires AllDigits(d)
  {
    if |d| == 0 then 0 else DigitsValue(d[..|d| - 1]) * 10 + DigitValue(d[|d| - 1])
  }

  /** Python's `int(s)` for a base-10 string: `None` where Python raises
      `ValueError`. Surrounding whitespace and one leading sign are
      accepted. */
  function ParseInt(s: string): (r: Option<int>)
    ensures |Strip(s)| == 0 ==> r == None
  {
    var t := Strip(s);
    if |t| == 0 then None else ParseSigned(t)
  }

  /** `int()` of a stripped, non-empty string: one optional sign, then a
      digit group. */
  function ParseSigned(t: string): (r: Option<int>)
    requires |t| > 0
  {
    var body := if t[0] == '-' || t[0] == '+' then t[1..] else t;
    if DigitGroup(body) then
      var v: int := DigitsValue(RemoveUnderscores(body));
      Some(if t[0] == '-' then -v else v)
    else None
  }

  /** Python's `str(n)` for a natural number. */
  function ShowNat(n: nat): (s: string)
    ensures |s| > 0 && AllDigits(s)
  {
    if n < 10 then [DigitChar(n)] else ShowNat(n / 10) + [DigitChar(n % 10)]
  }

  /** Python's `str(n)` for an integer. */
  function ShowInt(n: int): string {
    if n < 0 then "-" + ShowNat(-n) else ShowNat(n)
  }

  lemma {:induction false} DigitsValueShowNat(n: nat)
    ensures DigitsValue(ShowNat(n)) == n
  {
    if n >= 10 {
      var s := ShowNat(n);
      assert s[..|s| - 1] == ShowNat(n / 10);
      DigitsValueShowNat(n / 10);
    }
  }

  lemma {:induction false} DigitGroupOfDigits(d: string)
    requires |d| > 0 && AllDigits(d)
    decreases |d|
    ensures DigitGroup(d) && RemoveUnderscores(d) == d
  {
    if |d| > 1 {
      assert AllDigits(d[1..]) by {
        forall i | 0 <= i < |d| - 1 ensures IsDigit(d[1..][i]) {
          assert d[1..][i] == d[i + 1];
        }
      }
      DigitGroupOfDigits(d[1..]);
    }
  }

  /** A digit string parses to its value. */
  lemma ParseDigits(d: string)
    requires |d| > 0 && AllDigits(d)
    ensures ParseInt(d) == Some(DigitsValue(d) as int)
  {
    assert IsDigit(d[0]) && IsDigit(d[|d| - 1]);
    ParseIntOfClean(d);
    DigitGroupOfDigits(d);
  }

  /** A minus sign followed by digits is the negated value of the digits. */
  lemma ParseSignedNegative(t: string)
    requires 1 < |t| && t[0] == '-' && AllDigits(t[1..])
    ensures ParseSigned(t) == Some(-(DigitsValue(t[1..]) as int))
  {
    DigitGroupOfDigits(t[1..]);
  }

  /** `int(str(n)) == n`: the parser reads back what Python prints. */
  lemma ParseShowInt(n: int)
    ensures ParseInt(ShowInt(n)) == Some(n)
  {
    var m: nat := if n < 0 then -n else n;
    DigitsValueShowNat(m);
    if n < 0 {
      var s := ShowInt(n);
      assert s[1..] == ShowNat(m) && s[|s| - 1] == ShowNat(m)[|ShowNat(m)| - 1];
      ParseIntOfClean(s);
      ParseSignedNegative(s);
    } else {
      ParseDigits(ShowNat(m));
    }
  }
}
