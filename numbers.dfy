/** Python's int(), float() and str() conversions as far as the plug-ins
    apply them to agent output: decimal digits with an optional sign and
    surrounding whitespace, and truncation of a float toward zero. */
module Numbers {
  import opened Common
  import opened Text

  predicate IsDigit(c: char) {
    '0' <= c <= '9'
  }

  predicate AllDigits(s: string) {
    forall i :: 0 <= i < |s| ==> IsDigit(s[i])
  }

  function DigitValue(c: char): nat
    requires IsDigit(c)
  {
    c as int - '0' as int
  }

  function DigitChar(d: nat): (c: char)
    requires d < 10
    ensures IsDigit(c) && DigitValue(c) == d
  {
    ('0' as int + d) as char
  }

  /** The value of a string of decimal digits, most significant first. */
  function DigitsValue(s: string): nat
    requires AllDigits(s)
  {
    if s == [] then 0 else DigitsValue(s[..|s| - 1]) * 10 + DigitValue(s[|s| - 1])
  }

  function Pow10(n: nat): (p: nat)
    ensures p >= 1
  {
    if n == 0 then 1 else 10 * Pow10(n - 1)
  }

  /** str(n) for a natural number. */
  function NatToString(n: nat): (s: string)
    ensures s != [] && AllDigits(s)
    ensures |s| > 1 ==> s[0] != '0'
  {
    if n < 10 then [DigitChar(n)] else NatToString(n / 10) + [DigitChar(n % 10)]
  }

  /** str(i) for an integer. */
  function IntToString(i: int): string {
    if i < 0 then "-" + NatToString(-i) else NatToString(i)
  }

  lemma {:induction false} NatToStringValue(n: nat)
    ensures DigitsValue(NatToString(n)) == n
  {
    if n >= 10 {
      var s := NatToString(n);
      assert s[..|s| - 1] == NatToString(n / 10);
      NatToStringValue(n / 10);
    }
  }

  /** The (sign, digits) split Python's int() and float() perform on a
      stripped literal. */
  function SignOf(t: string): int {
    if t != [] && t[0] == '-' then -1 else 1
  }

  function Unsigned(t: string): (u: string)
    ensures |u| <= |t|
  {
    if t != [] && (t[0] == '-' || t[0] == '+') then t[1..] else t
  }

  /** int(s) for the decimal literals the agent writes: ValueError
      unless, after stripping whitespace, s is an optional sign followed
      by at least one ASCII digit. Underscores between digits and
      non-ASCII decimal digits, which Python also accepts, are not
      modelled. */
  function ParseInt(s: string): (r: Try<int>)
    ensures r.Raised? ==> r.exception == ValueError
    ensures r.Ok? <==> var u := Unsigned(Strip(s)); u != [] && AllDigits(u)
  {
    var t := Strip(s);
    var u := Unsigned(t);
    if u != [] && AllDigits(u) then Ok(SignOf(t) * DigitsValue(u)) else Raised(ValueError)
  }

  /** Stripping str(i) leaves it unchanged; its sign and digits are
      those of i. */
  lemma IntStringParts(i: int)
    ensures Strip(IntToString(i)) == IntToString(i)
    ensures SignOf(IntToString(i)) == (if i < 0 then -1 else 1)
    ensures Unsigned(IntToString(i)) == NatToString(if i < 0 then -i else i)
  {
    var s := IntToString(i);
    StripTrimmed(s);
    if i < 0 {
      assert s[1..] == NatToString(-i);
    }
  }

  /** int(str(i)) == i */
  lemma IntRoundTrip(i: int)
    ensures ParseInt(IntToString(i)) == Ok(i)
  {
    IntStringParts(i);
    NatToStringValue(if i < 0 then -i else i);
  }

  /** The integral and fractional digits of an unsigned literal, split
      at its first decimal point. */
  function SplitDecimal(u: string): (parts: (string, string))
    ensures |parts.0| <= |u|
  {
    var ip := BeforeFirst(u, '.');
    (ip, if |ip| < |u| then u[|ip| + 1..] else [])
  }

  /** The value of the decimal literal "<whole>.<frac>". */
  function DecimalValue(whole: string, frac: string): real
    requires AllDigits(whole) && AllDigits(frac)
  {
    DigitsValue(whole) as real + DigitsValue(frac) as real / Pow10(|frac|) as real
  }

  /** float(s) for the decimal literals the agent writes: after
      stripping whitespace, an optional sign and ASCII digits with at most
      one decimal point, at least one digit. Exponents, 'inf', 'nan',
      underscores and non-ASCII digits, which Python also accepts, are
      not modelled. */
  function ParseFloat(s: string): (r: Try<real>)
    ensures r.Raised? ==> r.exception == ValueError
  {
    var t := Strip(s);
    var parts := SplitDecimal(Unsigned(t));
    if AllDigits(parts.0) && AllDigits(parts.1) && |parts.0| + |parts.1| > 0 then
      var m := DecimalValue(parts.0, parts.1);
      Ok(if SignOf(t) < 0 then -m else m)
    else Raised(ValueError)
  }

  /** float(str(i)) == i: an integer literal is also a float literal. */
  lemma FloatOfIntString(i: int)
    ensures ParseFloat(IntToString(i)) == Ok(i as real)
  {
    var n: nat := if i < 0 then -i else i;
    IntStringParts(i);
    NatToStringValue(n);
    FloatOfInteger(IntToString(i), NatToString(n), i);
  }

  /** A stripped literal of a sign and digits without a decimal point is
      the signed value of its digits as a float. */
  lemma FloatOfInteger(s: string, d: string, i: int)
    requires Strip(s) == s && Unsigned(s) == d && d != [] && AllDigits(d)
    requires DigitsValue(d) == (if i < 0 then -i else i) && SignOf(s) == (if i < 0 then -1 else 1)
    ensures ParseFloat(s) == Ok(i as real)
  {
    BeforeFirstAbsent(d, '.');
    assert SplitDecimal(d) == (d, []);
    assert DecimalValue(d, []) == DigitsValue(d) as real;
  }

  lemma BeforeFirstAbsent(s: string, sep: char)
    requires forall k :: 0 <= k < |s| ==> s[k] != sep
    ensures BeforeFirst(s, sep) == s
  {
  }

  /** A decimal literal "<whole>.<frac>" denotes whole + frac / 10^|frac|. */
  lemma FloatOfDecimal(whole: string, frac: string)
    requires whole != [] && AllDigits(whole) && AllDigits(frac)
    ensures ParseFloat(whole + "." + frac) == Ok(DecimalValue(whole, frac))
  {
    var s := whole + "." + frac;
    assert s[0] == whole[0] && IsDigit(s[0]);
    assert s[|s| - 1] == '.' || IsDigit(s[|s| - 1]);
    StripTrimmed(s);
    assert Unsigned(s) == s;
    assert SignOf(s) == 1;
    BeforeFirstDigits(whole, "." + frac);
    assert s == whole + ("." + frac);
    assert s[|whole| + 1..] == frac;
    assert SplitDecimal(s) == (whole, frac);
  }

  lemma {:induction false} BeforeFirstDigits(whole: string, rest: string)
    requires AllDigits(whole)
    requires rest != [] && rest[0] == '.'
    ensures BeforeFirst(whole + rest, '.') == whole
  {
    if whole != [] {
      assert (whole + rest)[1..] == whole[1..] + rest;
      BeforeFirstDigits(whole[1..], rest);
    } else {
      assert whole + rest == rest;
    }
  }

  /** int(x) for a float x: truncation toward zero. */
  function Trunc(x: real): (n: int)
    ensures x >= 0.0 ==> 0 <= n && n as real <= x < n as real + 1.0
    ensures x < 0.0 ==> n <= 0 && n as real - 1.0 < x <= n as real
  {
    if x >= 0.0 then x.Floor else -((-x).Floor)
  }

  /** int(v) for a decoded JSON value: bool counts as 0 or 1, a float is
      truncated, a string is parsed, None raises TypeError. */
  function IntOf(v: Json): (r: Try<int>)
    ensures v.JNull? <==> r == Raised(TypeError)
    ensures v.JInt? ==> r == Ok(v.i)
    ensures v.JStr? ==> r == ParseInt(v.s)
  {
    match v
    case JNull => Raised(TypeError)
    case JBool(b) => Ok(if b then 1 else 0)
    case JInt(i) => Ok(i)
    case JFloat(x) => Ok(Trunc(x))
    case JStr(s) => ParseInt(s)
  }

  /** float(v) for a decoded JSON value. */
  function FloatOf(v: Json): (r: Try<real>)
    ensures v.JNull? <==> r == Raised(TypeError)
    ensures v.JInt? ==> r == Ok(v.i as real)
    ensures v.JStr? ==> r == ParseFloat(v.s)
  {
    match v
    case JNull => Raised(TypeError)
    case JBool(b) => Ok(if b then 1.0 else 0.0)
    case JInt(i) => Ok(i as real)
    case JFloat(x) => Ok(x)
    case JStr(s) => ParseFloat(s)
  }

  /** A counter the agent reports as the decimal string of an integer
      converts to that integer under both int() and float(). */
  lemma CounterString(i: int)
    ensures IntOf(JStr(IntToString(i))) == Ok(i)
    ensures FloatOf(JStr(IntToString(i))) == Ok(i as real)
  {
    IntRoundTrip(i);
    FloatOfIntString(i);
  }
}
