/** JavaScript's `parseFloat` and `Number` on decimal text, with `NaN` as `None`. */
module Decimal {
  import opened Wrappers
  import opened Text
  import opened Scan

  /** `s.replace(/,/g, '')`. */
  function StripCommas(s: string): (r: string)
    ensures ',' !in r
    ensures forall c :: c in r ==> c in s
    ensures |r| <= |s|
    ensures ',' !in s ==> r == s
  {
    if |s| == 0 then ""
    else if s[0] == ',' then StripCommas(s[1..])
    else assert s == [s[0]] + s[1..]; [s[0]] + StripCommas(s[1..])
  }

  function DigitValue(c: char): (v: nat)
    requires IsDigit(c)
    ensures v < 10
  {
    c as int - '0' as int
  }

  predicate AllDigits(d: string) {
    forall k | 0 <= k < |d| :: IsDigit(d[k])
  }

  /** The value of a string of decimal digits, most significant first. */
  function DigitsValue(d: string): nat
    requires AllDigits(d)
    decreases |d|
  {
    if |d| == 0 then 0 else DigitsValue(d[..|d| - 1]) * 10 + DigitValue(d[|d| - 1])
  }

  function Pow10(n: nat): (p: nat)
    ensures p >= 1
  {
    if n == 0 then 1 else 10 * Pow10(n - 1)
  }

  /** The value of the digits after a decimal point. */
  function FractionValue(d: string): (r: real)
    requires AllDigits(d)
    ensures r >= 0.0
  {
    DigitsValue(d) as real / Pow10(|d|) as real
  }

  /** The longest decimal literal `[+-]?\d*(\.\d*)?` with at least one digit at index `i`, as its value
      and the index after it; `None` when there is none. */
  function DecimalPrefix(s: string, i: nat): (r: Option<(real, nat)>)
    requires i <= |s|
    ensures r.Some? ==> i < r.value.1 <= |s|
    ensures r.Some? && (i == |s| || (s[i] != '-')) ==> r.value.0 >= 0.0
    ensures r.Some? ==> exists k | i <= k < r.value.1 :: IsDigit(s[k])
    ensures i < |s| && IsDigit(s[i]) ==> r.Some?
  {
    var negative := i < |s| && s[i] == '-';
    var j := if i < |s| && (s[i] == '-' || s[i] == '+') then i + 1 else i;
    var k := Span(s, j, Digit);
    var hasPoint := k < |s| && s[k] == '.';
    var m := if hasPoint then Span(s, k + 1, Digit) else k;
    if k == j && m <= k + 1 then None
    else
      var w := if k > j then j else k + 1;
      assert i <= w < m && IsDigit(s[w]);
      var whole := DigitsValue(s[j..k]) as real;
      var fraction := if hasPoint then FractionValue(s[k + 1..m]) else 0.0;
      Some((if negative then -(whole + fraction) else whole + fraction, m))
  }

  /** `parseFloat(s)`: leading whitespace is skipped and the longest decimal literal is read;
      `None` (NaN) when no digit starts the text. */
  function ParseFloat(s: string): (r: Option<real>)
    ensures r.Some? ==> exists k | Span(s, 0, Space) <= k < |s| :: IsDigit(s[k])
    ensures Span(s, 0, Space) < |s| && IsDigit(s[Span(s, 0, Space)]) ==> r.Some?
    ensures r.Some? && (Span(s, 0, Space) == |s| || s[Span(s, 0, Space)] != '-') ==> r.value >= 0.0
  {
    match DecimalPrefix(s, Span(s, 0, Space))
    case Some((v, _)) => Some(v)
    case None => None
  }

  /** `Number(s)`: the whole text, trimmed, must be a decimal literal; empty text is 0. */
  function NumberValue(s: string): (r: Option<real>)
    ensures Trim(s) == [] ==> r == Some(0.0)
  {
    var t := Trim(s);
    if t == [] then Some(0.0)
    else
      match DecimalPrefix(t, 0)
      case Some((v, e)) => if e == |t| then Some(v) else None
      case None => None
  }
}
