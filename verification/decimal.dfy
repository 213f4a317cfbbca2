/** Decimal text of a non-negative integer, as JavaScript's template literals and
    `Number.prototype.toString` render it, and the reading of digit strings back into numbers. */
module Decimal {
  import opened Wrappers

  predicate IsDigit(c: char)
  {
    '0' <= c <= '9'
  }

  predicate AllDigits(s: string)
  {
    forall k | 0 <= k < |s| :: IsDigit(s[k])
  }

  function DigitChar(d: nat): (c: char)
    requires d < 10
    ensures IsDigit(c)
  {
    "0123456789"[d]
  }

  function DigitValue(c: char): (d: nat)
    requires IsDigit(c)
    ensures d < 10
  {
    (c as int - '0' as int) as nat
  }

  lemma DigitValueOfChar(d: nat)
    requires d < 10
    ensures DigitValue(DigitChar(d)) == d
  {
  }

  /** The shortest decimal text of `n`, most significant digit first. */
  function DecimalText(n: nat): (s: string)
    ensures 1 <= |s| && AllDigits(s)
  {
    if n < 10 then [DigitChar(n)] else DecimalText(n / 10) + [DigitChar(n % 10)]
  }

  /** The number a string of digits denotes (leading zeros allowed). */
  function DigitsValue(s: string): nat
    requires AllDigits(s)
  {
    if |s| == 0 then 0 else DigitsValue(s[..|s| - 1]) * 10 + DigitValue(s[|s| - 1])
  }

  /** Reads a non-empty string of digits. */
  function ParseDecimal(s: string): (r: Option<nat>)
    ensures r.Some? <==> 1 <= |s| && AllDigits(s)
  {
    if 1 <= |s| && AllDigits(s) then Some(DigitsValue(s)) else None
  }

  lemma {:induction false} DecimalTextValue(n: nat)
    ensures DigitsValue(DecimalText(n)) == n
  {
    var s := DecimalText(n);
    if n < 10 {
      DigitValueOfChar(n);
      assert s[..0] == [];
    } else {
      DecimalTextValue(n / 10);
      DigitValueOfChar(n % 10);
      assert s[..|s| - 1] == DecimalText(n / 10);
    }
  }

  /** Reading the decimal text of `n` gives back `n`. */
  lemma DecimalRoundTrip(n: nat)
    ensures ParseDecimal(DecimalText(n)) == Some(n)
  {
    DecimalTextValue(n);
  }

  /** A value below 100 has at most two digits. */
  lemma {:induction false} DecimalTextShort(n: nat)
    ensures n < 10 ==> |DecimalText(n)| == 1
    ensures 10 <= n < 100 ==> |DecimalText(n)| == 2
  {
    if 10 <= n < 100 {
      assert DecimalText(n / 10) == [DigitChar(n / 10)];
    }
  }

  /** A single leading zero does not change the value of a digit string. */
  lemma LeadingZero(s: string)
    requires AllDigits(s)
    ensures AllDigits("0" + s) && DigitsValue("0" + s) == DigitsValue(s)
  {
    if |s| > 0 {
      var t := "0" + s;
      assert t[..|t| - 1] == "0" + s[..|s| - 1];
      LeadingZero(s[..|s| - 1]);
    }
  }
}
