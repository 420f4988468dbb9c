/** Python's `str` of an integer: an optional '-' followed by decimal digits
    without leading zeros. `process_post` uses it to name the artifact file
    of a post whose identifier is an integer. */
module Decimal {

  predicate IsDigit(c: char)
  {
    '0' <= c <= '9'
  }

  function DigitChar(d: nat): (c: char)
    requires d < 10
    ensures IsDigit(c)
  {
    ('0' as int + d) as char
  }

  function DigitValue(c: char): (d: nat)
    requires IsDigit(c)
    ensures d < 10 && DigitChar(d) == c
  {
    c as int - '0' as int
  }

  predicate AllDigits(s: string)
  {
    forall i :: 0 <= i < |s| ==> IsDigit(s[i])
  }

  /** The decimal digits of `n`, most significant first. */
  function NatToText(n: nat): (s: string)
    ensures |s| > 0 && AllDigits(s)
    ensures n > 0 ==> s[0] != '0'
    ensures s[0] == '0' ==> s == "0"
  {
    if n < 10 then [DigitChar(n)] else NatToText(n / 10) + [DigitChar(n % 10)]
  }

  /** The value of a string of decimal digits. */
  function TextToNat(s: string): nat
    requires AllDigits(s)
  {
    if s == [] then 0 else TextToNat(s[..|s| - 1]) * 10 + DigitValue(s[|s| - 1])
  }

  /** Reading back the digits of `n` gives `n`. */
  lemma {:induction false} NatRoundTrip(n: nat)
    ensures TextToNat(NatToText(n)) == n
  {
    if n >= 10 {
      NatRoundTrip(n / 10);
      var s := NatToText(n);
      assert s[..|s| - 1] == NatToText(n / 10);
    }
  }

  /** Python's `str(n)` for an `int` `n`. */
  function IntToText(n: int): (text: string)
    ensures |text| > 0 && (text[0] == '-' <==> n < 0)
    ensures var digits := if n < 0 then text[1..] else text;
            && AllDigits(digits) && digits != []
            && (digits[0] == '0' ==> digits == "0")
            && TextToNat(digits) == (if n < 0 then -n else n)
  {
    if n < 0 then
      NatRoundTrip(-n);
      assert ("-" + NatToText(-n))[1..] == NatToText(-n);
      "-" + NatToText(-n)
    else
      NatRoundTrip(n);
      NatToText(n)
  }

  /** Distinct integers have distinct texts. */
  lemma IntToTextInjective(a: int, b: int)
    requires IntToText(a) == IntToText(b)
    ensures a == b
  {
    var s := IntToText(a);
    assert (a < 0) == (s[0] == '-') && (b < 0) == (s[0] == '-');
    if a < 0 {
      assert NatToText(-a) == s[1..] == NatToText(-b);
      NatRoundTrip(-a);
      NatRoundTrip(-b);
    } else {
      NatRoundTrip(a);
      NatRoundTrip(b);
    }
  }
}
