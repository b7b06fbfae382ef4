/** Decimal integers as read by strconv.ParseInt(s, 10, 64) and written by the
    `%d` verb: an optional sign, one or more ASCII digits, and a value that
    fits a signed 64-bit integer. */
module Decimal {
  import opened Wrappers

  const MinInt64: int := -0x8000_0000_0000_0000
  const MaxInt64: int := 0x7FFF_FFFF_FFFF_FFFF

  predicate IsDigit(c: char) {
    '0' <= c <= '9'
  }

  predicate AllDigits(s: string) {
    forall j :: 0 <= j < |s| ==> IsDigit(s[j])
  }

  function DigitValue(c: char): (d: nat)
    requires IsDigit(c)
    ensures d < 10
  {
    c as int - '0' as int
  }

  function DigitChar(d: nat): (c: char)
    requires d < 10
    ensures IsDigit(c) && DigitValue(c) == d
  {
    ('0' as int + d) as char
  }

  /** The value of a string of digits, most significant digit first. */
  function DigitsValue(s: string): nat
    requires AllDigits(s)
  {
    if s == [] then 0 else DigitsValue(s[..|s| - 1]) * 10 + DigitValue(s[|s| - 1])
  }

  /** strconv.ParseInt(s, 10, 64); None stands for the error result (empty
      text, a stray character, or a value outside the 64-bit range). */
  function ParseInt64(s: string): (r: Option<int>)
    ensures r.Some? ==> MinInt64 <= r.value <= MaxInt64
    ensures r.Some? ==> s != [] && (IsDigit(s[0]) || s[0] == '+' || s[0] == '-')
    ensures r.Some? ==> |s| > 1 || IsDigit(s[0])
    ensures r.Some? ==> AllDigits(s[1..])
  {
    var signed := |s| > 0 && (s[0] == '-' || s[0] == '+');
    var body := if signed then s[1..] else s;
    if body == [] || !AllDigits(body) then None
    else
      var v: int := if |s| > 0 && s[0] == '-' then 0 - DigitsValue(body) as int else DigitsValue(body);
      if MinInt64 <= v <= MaxInt64 then Some(v) else None
  }

  /** The `%d` rendering of a natural number: no sign, no leading zero. */
  function FormatNat(n: nat): (s: string)
    ensures s != [] && AllDigits(s)
    ensures DigitsValue(s) == n
  {
    if n < 10 then [DigitChar(n)]
    else
      var prefix := FormatNat(n / 10);
      var s := prefix + [DigitChar(n % 10)];
      assert s[..|s| - 1] == prefix;
      s
  }

  /** The `%d` rendering of an integer. */
  function FormatInt(n: int): (s: string)
    ensures s != []
  {
    if n < 0 then "-" + FormatNat(0 - n) else FormatNat(n)
  }

  /** Every 64-bit value written with `%d` is read back unchanged. */
  lemma ParseFormatRoundTrip(n: int)
    requires MinInt64 <= n <= MaxInt64
    ensures ParseInt64(FormatInt(n)) == Some(n)
  {
    var s := FormatInt(n);
    if n < 0 {
      assert s[1..] == FormatNat(0 - n);
    } else {
      assert IsDigit(s[0]);
    }
  }
}
