/**
 * Decimal text for integers: `fmt.Sprintf("%d", i)` and
 * `strconv.ParseInt(s, 10, 64)`, which `json.Number.Int64` uses.
 */
module Decimal {
  import opened Outcomes

  const MinInt64: int := -0x8000_0000_0000_0000
  const MaxInt64: int := 0x7FFF_FFFF_FFFF_FFFF

  /** Go's `int64` (and `int`, which is 64 bits wide on the targets the code runs on). */
  type Int64 = i: int | -0x8000_0000_0000_0000 <= i <= 0x7FFF_FFFF_FFFF_FFFF

  predicate IsDigit(c: char) {
    '0' <= c <= '9'
  }

  predicate AllDigits(s: string) {
    forall i :: 0 <= i < |s| ==> IsDigit(s[i])
  }

  function DigitChar(d: nat): (c: char)
    requires d < 10
    ensures IsDigit(c) && c as int - '0' as int == d
  {
    ('0' as int + d) as char
  }

  /** The decimal digits of `n`, without leading zeros. */
  function FormatNat(n: nat): (s: string)
    ensures |s| > 0 && AllDigits(s)
    ensures n > 0 ==> s[0] != '0'
  {
    if n < 10 then [DigitChar(n)] else FormatNat(n / 10) + [DigitChar(n % 10)]
  }

  /** `fmt.Sprintf("%d", i)`: a minus sign for negative numbers, then the digits. */
  function FormatInt(i: int): (s: string)
    ensures |s| > 0
    ensures i < 0 <==> s[0] == '-'
  {
    if i < 0 then "-" + FormatNat(-i) else FormatNat(i)
  }

  /** The value of a run of decimal digits, most significant first. */
  function DigitsValue(s: string): nat
    requires AllDigits(s)
  {
    if s == [] then 0 else DigitsValue(s[..|s| - 1]) * 10 + (s[|s| - 1] as int - '0' as int)
  }

  /**
   * `strconv.ParseInt(s, 10, 64)`: an optional sign, at least one digit and
   * nothing else; a value outside the 64-bit range is an error, as is any
   * other text (a fraction, an exponent, white space).
   */
  function ParseInt64(s: string): (r: Option<Int64>)
    ensures r.Some? ==> |s| > 0
  {
    var signed := |s| > 0 && (s[0] == '-' || s[0] == '+');
    var body := if signed then s[1..] else s;
    if body == [] || !AllDigits(body) then None
    else
      var v: int := if signed && s[0] == '-' then 0 - DigitsValue(body) as int else DigitsValue(body);
      if MinInt64 <= v <= MaxInt64 then Some(v) else None
  }

  lemma {:induction false} DigitsRoundTrip(n: nat)
    ensures DigitsValue(FormatNat(n)) == n
  {
    if n >= 10 {
      var s := FormatNat(n);
      assert s[..|s| - 1] == FormatNat(n / 10);
      DigitsRoundTrip(n / 10);
    }
  }

  /** What `%d` prints, `ParseInt` reads back. */
  lemma FormatParseRoundTrip(i: Int64)
    ensures ParseInt64(FormatInt(i)) == Some(i)
  {
    if i < 0 {
      var s := FormatInt(i);
      assert s[1..] == FormatNat(-(i as int));
      DigitsRoundTrip(-(i as int));
    } else {
      DigitsRoundTrip(i);
    }
  }

  /** `ParseInt` accepts a run of digits whose value is in range, and nothing with a non-digit in it. */
  lemma {:induction false} ParseInt64Digits(s: string)
    requires |s| > 0 && AllDigits(s)
    ensures ParseInt64(s) == if DigitsValue(s) <= MaxInt64 then Some(DigitsValue(s) as Int64) else None
  {
  }

  /** A non-digit anywhere but in the sign position makes the text no integer: a fraction, an exponent, white space. */
  lemma ParseInt64RejectsNonDigit(s: string, i: nat)
    requires i < |s| && !IsDigit(s[i])
    requires i == 0 ==> s[0] != '-' && s[0] != '+'
    ensures ParseInt64(s) == None
  {
    if i > 0 && (s[0] == '-' || s[0] == '+') {
      assert s[1..][i - 1] == s[i];
    }
  }

  /** Text without a single digit is no integer, the empty text and a lone sign included. */
  lemma ParseInt64NeedsDigit(s: string)
    requires forall i :: 0 <= i < |s| ==> !IsDigit(s[i])
    ensures ParseInt64(s) == None
  {
    if |s| > 1 {
      assert !IsDigit(s[1..][0]);
    }
  }
}
