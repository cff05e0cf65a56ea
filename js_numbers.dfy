/**
 * The part of JavaScript's number parsing the TypeScript solutions use:
 * `parseInt` on decimal text.
 */
module JsNumbers {
  import opened Wrappers
  import opened Text

  /** The run of decimal digits at the front of `s`. */
  function LeadingDigits(s: string): (d: string)
    ensures |d| <= |s| && d == s[..|d|]
    ensures forall i :: 0 <= i < |d| ==> IsDigit(d[i])
    ensures |d| < |s| ==> !IsDigit(s[|d|])
  {
    if |s| == 0 || !IsDigit(s[0]) then [] else [s[0]] + LeadingDigits(s[1..])
  }

  /**
   * JavaScript's `parseInt` on the texts the input can hold: the value of
   * the leading digits, ignoring whatever follows them, and `None` (NaN)
   * when the text does not start with a digit.
   */
  function ParseInt(s: string): (r: Option<nat>)
    ensures r.Some? <==> |s| > 0 && IsDigit(s[0])
    ensures r.Some? && (|s| == 1 || !IsDigit(s[1])) ==> r.value == DigitValue(s[0])
  {
    var d := LeadingDigits(s);
    if |d| == 0 then None
    else
      assert |s| == 1 || !IsDigit(s[1]) ==> DecimalValue(d) == DigitValue(s[0]) by {
        if |s| == 1 || !IsDigit(s[1]) {
          assert d == [s[0]] && d[..0] == [];
          assert DecimalValue(d) == 10 * DecimalValue([]) + DigitValue(s[0]);
        }
      }
      Some(DecimalValue(d))
  }

  /** The leading digits of digits followed by a non-digit are those digits. */
  lemma {:induction false} LeadingDigitsOf(d: string, rest: string)
    requires forall i :: 0 <= i < |d| ==> IsDigit(d[i])
    requires |rest| == 0 || !IsDigit(rest[0])
    ensures LeadingDigits(d + rest) == d
  {
    if |d| > 0 {
      assert (d + rest)[1..] == d[1..] + rest;
      LeadingDigitsOf(d[1..], rest);
    } else {
      assert d + rest == rest;
    }
  }

  /** `parseInt` reads back the decimal rendering of a number, whatever non-digit text follows it. */
  lemma ParseIntOfDecimal(n: nat, rest: string)
    requires |rest| == 0 || !IsDigit(rest[0])
    ensures ParseInt(DecimalString(n) + rest) == Some(n)
  {
    LeadingDigitsOf(DecimalString(n), rest);
    DecimalStringValue(n);
  }

  /**
   * Where this `parseInt` is narrower than JavaScript's: leading blanks and
   * signs give `None`, and a `0x` prefix reads as the `0` before the `x`.
   */
  lemma NarrowerThanJavaScript()
    ensures ParseInt(" 12") == None
    ensures ParseInt("+12") == None && ParseInt("-12") == None
    ensures ParseInt("0x1A") == Some(0) && ParseInt("0x") == Some(0)
  {
  }
}
