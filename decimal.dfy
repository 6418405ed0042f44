/** Decimal text of integers: the formatting Go's `%v` verb applies to an
    `int`, and `strconv.ParseInt(s, 10, 64)`, which `encoding/json` uses to
    read a string-wrapped integer field. */
module Decimal {
  import opened Wrappers

  /** The range of Go's `int` on a 64-bit platform. */
  const MinInt64: int := -0x8000_0000_0000_0000
  const MaxInt64: int := 0x7FFF_FFFF_FFFF_FFFF

  predicate IsDigitChar(c: char) {
    '0' <= c <= '9'
  }

  predicate AllDigits(s: string) {
    forall i :: 0 <= i < |s| ==> IsDigitChar(s[i])
  }

  function DigitChar(d: int): (c: char)
    requires 0 <= d < 10
    ensures IsDigitChar(c) && c as int - '0' as int == d
  {
    ('0' as int + d) as char
  }

  /** The shortest decimal numeral of `n`, most significant digit first. */
  function DigitsOf(n: nat): (s: string)
    ensures |s| > 0 && AllDigits(s)
    ensures n < 10 <==> |s| == 1
    ensures s[0] == '0' <==> n == 0
    decreases n
  {
    if n < 10 then [DigitChar(n)] else DigitsOf(n / 10) + [DigitChar(n % 10)]
  }

  /** `fmt.Sprintf("%v", n)` for an `int`: a minus sign for negative values,
      then the digits of the magnitude, with no leading zero. */
  function FormatInt(n: int): (s: string)
    ensures |s| > 0
    ensures s[0] == '-' <==> n < 0
    ensures n >= 0 ==> AllDigits(s)
    ensures n < 0 ==> |s| > 1 && AllDigits(s[1..])
    ensures n >= 0 && |s| > 1 ==> s[0] != '0'
    ensures n < 0 ==> s[1] != '0'
  {
    if n < 0 then
      assert ("-" + DigitsOf(-n))[1..] == DigitsOf(-n);
      "-" + DigitsOf(-n)
    else DigitsOf(n)
  }

  /** The value of a numeral read most significant digit first. */
  function DigitsValue(s: string): nat
    requires AllDigits(s)
    decreases |s|
  {
    if |s| == 0 then 0
    else DigitsValue(s[..|s| - 1]) * 10 + (s[|s| - 1] as int - '0' as int)
  }

  /** The unsigned part of `strconv.ParseUint(s, 10, 64)`: at least one digit
      and nothing but digits (base 10 admits no underscores). */
  function ParseUnsigned(s: string): (r: Option<nat>)
    ensures r.Some? <==> |s| > 0 && AllDigits(s)
  {
    if |s| > 0 && AllDigits(s) then Some(DigitsValue(s)) else None
  }

  /** The text after one leading sign, if there is one. */
  function Unsigned(s: string): string {
    if |s| > 0 && (s[0] == '-' || s[0] == '+') then s[1..] else s
  }

  /** The magnitude `m` with the sign that `s` starts with. */
  function Signed(s: string, m: nat): int {
    if |s| > 0 && s[0] == '-' then 0 - m as int else m
  }

  /** `strconv.ParseInt(s, 10, 64)`: an optional sign, then digits; `None`
      for a syntax error or a value outside the 64-bit range. */
  function ParseInt64(s: string): (r: Option<int>)
    ensures r.Some? ==> MinInt64 <= r.value <= MaxInt64
    ensures var d := Unsigned(s);
      r.Some? <==> |d| > 0 && AllDigits(d) && MinInt64 <= Signed(s, DigitsValue(d)) <= MaxInt64
    ensures r.Some? ==> AllDigits(Unsigned(s)) && r.value == Signed(s, DigitsValue(Unsigned(s)))
  {
    if |s| > 0 && s[0] == '-' then
      match ParseUnsigned(s[1..])
      case Some(u) => if u <= -MinInt64 then Some(0 - u as int) else None
      case None => None
    else
      var digits := if |s| > 0 && s[0] == '+' then s[1..] else s;
      match ParseUnsigned(digits)
      case Some(u) => if u <= MaxInt64 then Some(u) else None
      case None => None
  }

  /** Reading back the digits of `n` gives `n`. */
  lemma {:induction false} DigitsRoundTrip(n: nat)
    ensures DigitsValue(DigitsOf(n)) == n
    decreases n
  {
    var s := DigitsOf(n);
    if n >= 10 {
      DigitsRoundTrip(n / 10);
      assert s[..|s| - 1] == DigitsOf(n / 10);
    }
  }

  /** Every 64-bit integer survives formatting with `%v` and parsing with
      `strconv.ParseInt`. */
  lemma FormatParseRoundTrip(n: int)
    requires MinInt64 <= n <= MaxInt64
    ensures ParseInt64(FormatInt(n)) == Some(n)
  {
    var s := FormatInt(n);
    if n < 0 {
      assert s[1..] == DigitsOf(-n);
      DigitsRoundTrip(-n);
    } else {
      DigitsRoundTrip(n);
    }
  }

  /** Formatting is injective on the signed 64-bit range: distinct codes
      there give distinct text. */
  lemma FormatIntInjective(m: int, n: int)
    requires MinInt64 <= m <= MaxInt64 && MinInt64 <= n <= MaxInt64
    requires FormatInt(m) == FormatInt(n)
    ensures m == n
  {
    FormatParseRoundTrip(m);
    FormatParseRoundTrip(n);
  }
}
