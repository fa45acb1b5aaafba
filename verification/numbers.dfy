/**
  Number conversions the application performs: `Math.round`, and the decimal
  readings of `parseInt` and `parseFloat` (NaN is `None`).
 */
module Numbers {
  import opened Wrappers
  import opened Text

  /** `Math.round`: the nearest integer, a half rounding up. */
  function Round(x: real): (n: int)
    ensures n as real - 0.5 <= x < n as real + 0.5
  {
    (x + 0.5).Floor
  }

  /** Rounding an integer gives it back. */
  lemma {:induction false} RoundInteger(n: int)
    ensures Round(n as real) == n
  {
  }

  predicate IsDigit(c: char) {
    '0' <= c <= '9'
  }

  /** A decimal digit is not white space. */
  lemma {:induction false} DigitIsNotSpace(c: char)
    requires IsDigit(c)
    ensures !IsSpace(c)
  {
  }

  predicate AllDigits(s: string) {
    forall i :: 0 <= i < |s| ==> IsDigit(s[i])
  }

  function DigitValue(c: char): (d: nat)
    requires IsDigit(c)
    ensures d < 10
  {
    c as int - '0' as int
  }

  function DigitChar(d: nat): (c: char)
    requires d < 10
    ensures IsDigit(c) && DigitValue(c) == d
  {
    ('0' as int + d) as char
  }

  /** Length of the leading run of decimal digits. */
  function DigitRun(s: string): (k: nat)
    ensures k <= |s|
    ensures AllDigits(s[..k])
    ensures k < |s| ==> !IsDigit(s[k])
    decreases |s|
  {
    if |s| > 0 && IsDigit(s[0]) then 1 + DigitRun(s[1..]) else 0
  }

  /** The value of a string of decimal digits, most significant digit first. */
  function DigitsValue(ds: string): nat
    requires AllDigits(ds)
    decreases |ds|
  {
    if |ds| == 0 then 0 else DigitsValue(ds[..|ds| - 1]) * 10 + DigitValue(ds[|ds| - 1])
  }

  function Pow10(k: nat): (p: nat)
    ensures p >= 1
  {
    if k == 0 then 1 else 10 * Pow10(k - 1)
  }

  /** The decimal numeral of `n`, without leading zeros. */
  function DecimalString(n: nat): (s: string)
    ensures |s| >= 1 && AllDigits(s)
    ensures DigitsValue(s) == n
    ensures |s| > 1 ==> s[0] != '0'
    decreases n
  {
    if n < 10 then [DigitChar(n)]
    else
      var s := DecimalString(n / 10) + [DigitChar(n % 10)];
      assert s[..|s| - 1] == DecimalString(n / 10);
      s
  }

  /** An optional leading '+' or '-': whether it was '-', and what follows it. */
  function SplitSign(t: string): (r: (bool, string))
    ensures r.0 ==> |t| > 0 && t[0] == '-'
    ensures r.1 == t || (|t| > 0 && (t[0] == '+' || t[0] == '-') && r.1 == t[1..])
  {
    if |t| > 0 && (t[0] == '-' || t[0] == '+') then (t[0] == '-', t[1..]) else (false, t)
  }

  /** `parseInt(s)` in base 10: leading white space, an optional sign, then the longest digit run; NaN when there is no digit. */
  function ParseInt(s: string): (r: Option<int>)
    ensures r.Some? ==> exists i :: 0 <= i < |s| && IsDigit(s[i])
  {
    var t := TrimStart(s);
    var (negative, u) := SplitSign(t);
    var k := DigitRun(u);
    if k == 0 then None
    else
      assert IsDigit(u[..k][0]);
      var magnitude: int := DigitsValue(u[..k]);
      Some(if negative then -magnitude else magnitude)
  }

  /** The digits after a leading decimal point, or "" when `rest` does not start with one. */
  function FractionDigits(rest: string): (f: string)
    ensures AllDigits(f)
    ensures |f| > 0 ==> |rest| > |f| && rest[0] == '.' && f == rest[1..|f| + 1]
  {
    if |rest| > 0 && rest[0] == '.' then rest[1..][..DigitRun(rest[1..])] else ""
  }

  /** The value of the digits of a decimal fraction. */
  function FractionValue(f: string): real
    requires AllDigits(f)
  {
    DigitsValue(f) as real / Pow10(|f|) as real
  }

  /** `parseFloat(s)` for plain decimals: white space, sign, digits, an optional fraction; NaN when no digit is found. */
  function ParseFloat(s: string): (r: Option<real>)
    ensures r.Some? ==> exists i :: 0 <= i < |s| && IsDigit(s[i])
  {
    var t := TrimStart(s);
    var (negative, u) := SplitSign(t);
    var k := DigitRun(u);
    var f := FractionDigits(u[k..]);
    if k + |f| == 0 then None
    else
      assert k > 0 ==> IsDigit(u[..k][0]) && u[0] == s[|s| - |u|];
      assert k == 0 ==> IsDigit(f[0]) && u[1] == s[|s| - |u| + 1];
      var magnitude := DigitsValue(u[..k]) as real + FractionValue(f);
      Some(if negative then -magnitude else magnitude)
  }

  /** A string starting with a digit has no leading white space and no sign. */
  lemma {:induction false} DigitStartUnsigned(s: string)
    requires |s| > 0 && IsDigit(s[0])
    ensures TrimStart(s) == s
    ensures SplitSign(TrimStart(s)) == (false, s)
  {
    assert !IsSpace(s[0]);
  }

  /** `parseInt` reads back the numeral of any natural number, whatever non-digit text follows it. */
  lemma {:induction false} ParseIntDecimal(n: nat, tail: string)
    requires |tail| > 0 ==> !IsDigit(tail[0])
    ensures ParseInt(DecimalString(n) + tail) == Some(n)
  {
    var d := DecimalString(n);
    var s := d + tail;
    DigitStartUnsigned(s);
    DigitRunPrefix(d, tail);
    assert s[..|d|] == d;
  }

  /** A numeral of `n`, however it was obtained, reads back as `n`. */
  lemma {:induction false} NumeralParses(s: string, n: nat)
    requires s == DecimalString(n)
    ensures ParseInt(s) == Some(n)
  {
    ParseIntDecimal(n, "");
    assert s + "" == s;
  }

  /** `parseFloat` reads back the numeral of any natural number, whatever non-digit, non-point text follows it. */
  lemma {:induction false} ParseFloatDecimal(n: nat, tail: string)
    requires |tail| > 0 ==> !IsDigit(tail[0]) && tail[0] != '.'
    ensures ParseFloat(DecimalString(n) + tail) == Some(n as real)
  {
    ParseFloatDigits(DecimalString(n), tail);
  }

  /** `parseFloat` reads a digit string followed by neither digit nor point as the digits' value. */
  lemma {:induction false} ParseFloatDigits(d: string, tail: string)
    requires |d| > 0 && AllDigits(d)
    requires |tail| > 0 ==> !IsDigit(tail[0]) && tail[0] != '.'
    ensures ParseFloat(d + tail) == Some(DigitsValue(d) as real)
  {
    var s := d + tail;
    assert IsDigit(s[0]);
    DigitStartUnsigned(s);
    DigitRunPrefix(d, tail);
    assert s[..|d|] == d && s[|d|..] == tail;
    ParseFloatWhole(s, |d|);
  }

  /** An unsigned digit run with no fraction after it parses as its whole value. */
  lemma {:induction false} ParseFloatWhole(s: string, k: nat)
    requires 0 < k <= |s| && TrimStart(s) == s && SplitSign(s) == (false, s) && DigitRun(s) == k
    requires FractionDigits(s[k..]) == ""
    ensures ParseFloat(s) == Some(DigitsValue(s[..k]) as real)
  {
    assert FractionValue("") == 0.0;
  }

  /** A digit string followed by a non-digit has exactly its own length as leading run. */
  lemma {:induction false} DigitRunPrefix(d: string, tail: string)
    requires AllDigits(d)
    requires |tail| > 0 ==> !IsDigit(tail[0])
    ensures DigitRun(d + tail) == |d|
    decreases |d|
  {
    if |d| > 0 {
      assert (d + tail)[1..] == d[1..] + tail;
      DigitRunPrefix(d[1..], tail);
    } else {
      assert d + tail == tail;
    }
  }
}
