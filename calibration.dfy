/**
 * Trebuchet calibration, part one (2023 day 1): the calibration value of a
 * line is the two-digit number formed by its first and its last digit.
 */
module Calibration {
  import opened Wrappers
  import opened Text

  const NoDigitsFound: string := "No digits found"

  /** The digit characters of `s`, in order (`filter(is_numeric)`). */
  function Digits(s: string): (ds: string)
    ensures |ds| <= |s|
    ensures forall k :: 0 <= k < |ds| ==> IsDigit(ds[k])
  {
    if |s| == 0 then [] else (if IsDigit(s[0]) then [s[0]] else []) + Digits(s[1..])
  }

  /**
   * The first and last of the digits written side by side and read back as
   * a number, or the error when there is none. Reading two ASCII digits
   * back always succeeds, so the parse error of the source cannot occur.
   */
  function Combine(ds: string): (r: Result<nat, string>)
    requires forall k :: 0 <= k < |ds| ==> IsDigit(ds[k])
    ensures r.Err? <==> |ds| == 0
    ensures r.Err? ==> r.error == NoDigitsFound
    ensures r.Ok? ==> r.value == 10 * DigitValue(ds[0]) + DigitValue(ds[|ds| - 1]) < 100
  {
    if |ds| == 0 then Err(NoDigitsFound)
    else
      var pair := [ds[0], ds[|ds| - 1]];
      assert IsDigit(pair[0]) && IsDigit(pair[1]);
      assert DecimalValue(pair) == 10 * DigitValue(ds[0]) + DigitValue(ds[|ds| - 1]) by {
        var head: string := [ds[0]];
        assert pair[..|pair| - 1] == head && head[..|head| - 1] == [];
        assert DecimalValue(head) == DigitValue(ds[0]);
      }
      Ok(DecimalValue(pair))
  }

  /** `get_calibration_value`. */
  function CalibrationValue(s: string): (r: Result<nat, string>)
    ensures r.Err? <==> forall k :: 0 <= k < |s| ==> !IsDigit(s[k])
    ensures r.Err? ==> r.error == NoDigitsFound
    ensures r.Ok? ==> r.value < 100
  {
    if forall k :: 0 <= k < |s| ==> !IsDigit(s[k]) then
      DigitsNone(s);
      Combine(Digits(s))
    else
      var i :| 0 <= i < |s| && IsDigit(s[i]);
      DigitsSome(s, i);
      Combine(Digits(s))
  }

  /** Filtering distributes over concatenation. */
  lemma {:induction false} DigitsAppend(a: string, b: string)
    ensures Digits(a + b) == Digits(a) + Digits(b)
    decreases |a|
  {
    if |a| > 0 {
      assert (a + b)[0] == a[0] && (a + b)[1..] == a[1..] + b;
      DigitsAppend(a[1..], b);
    } else {
      assert a + b == b;
    }
  }

  /** A text without digits has none to keep. */
  lemma {:induction false} DigitsNone(s: string)
    requires forall k :: 0 <= k < |s| ==> !IsDigit(s[k])
    ensures Digits(s) == []
  {
    if |s| > 0 {
      DigitsNone(s[1..]);
    }
  }

  /** A digit somewhere is kept. */
  lemma {:induction false} DigitsSome(s: string, i: nat)
    requires i < |s| && IsDigit(s[i])
    ensures |Digits(s)| > 0
    decreases i
  {
    if i > 0 {
      DigitsSome(s[1..], i - 1);
    }
  }

  /**
   * The value in terms of positions of the text: an error exactly when the
   * text has no digit; otherwise, with `i` the first and `j` the last
   * digit position, ten times the digit at `i` plus the digit at `j`.
   */
  lemma CalibrationByPositions(s: string, i: nat, j: nat)
    requires i <= j < |s| && IsDigit(s[i]) && IsDigit(s[j])
    requires forall k :: 0 <= k < i ==> !IsDigit(s[k])
    requires forall k :: j < k < |s| ==> !IsDigit(s[k])
    ensures CalibrationValue(s) == Ok(10 * DigitValue(s[i]) + DigitValue(s[j]))
  {
    DigitsBetween(s, i, j);
    DigitsEnds(s[i..j + 1]);
  }

  /** Only the stretch from the first to the last digit contributes digits. */
  lemma {:induction false} DigitsBetween(s: string, i: nat, j: nat)
    requires i <= j < |s|
    requires forall k :: 0 <= k < i ==> !IsDigit(s[k])
    requires forall k :: j < k < |s| ==> !IsDigit(s[k])
    ensures Digits(s) == Digits(s[i..j + 1])
  {
    var before, middle, after := s[..i], s[i..j + 1], s[j + 1..];
    assert middle + after == s[i..];
    assert s == before + s[i..];
    DigitsNone(before);
    DigitsNone(after);
    DigitsAppend(before, middle + after);
    DigitsAppend(middle, after);
  }

  /** A stretch that starts and ends with a digit keeps those two at its ends. */
  lemma {:induction false} DigitsEnds(m: string)
    requires |m| > 0 && IsDigit(m[0]) && IsDigit(m[|m| - 1])
    ensures var ds := Digits(m); |ds| > 0 && ds[0] == m[0] && ds[|ds| - 1] == m[|m| - 1]
  {
    assert m == [m[0]] + m[1..];
    assert m == m[..|m| - 1] + [m[|m| - 1]];
    DigitsAppend([m[0]], m[1..]);
    DigitsAppend(m[..|m| - 1], [m[|m| - 1]]);
  }

  /** The error case: no digit anywhere, and only then. */
  lemma CalibrationError(s: string)
    ensures CalibrationValue(s).Err? <==> forall k :: 0 <= k < |s| ==> !IsDigit(s[k])
    ensures CalibrationValue(s).Err? ==> CalibrationValue(s).error == NoDigitsFound
  {
    if forall k :: 0 <= k < |s| ==> !IsDigit(s[k]) {
      DigitsNone(s);
    } else {
      var i :| 0 <= i < |s| && IsDigit(s[i]);
      DigitsSome(s, i);
    }
  }

  /** The lines the source's tests use: "1abc2" gives 12... */
  lemma ExampleEnds()
    ensures CalibrationValue("1abc2") == Ok(12)
  {
    CalibrationByPositions("1abc2", 0, 4);
  }

  /** ..."pqr3stu8vwx" gives 38... */
  lemma ExampleInner()
    ensures CalibrationValue("pqr3stu8vwx") == Ok(38)
  {
    CalibrationByPositions("pqr3stu8vwx", 3, 7);
  }

  /** ...only the outer digits count: "a1b2c3d4e5f" gives 15... */
  lemma ExampleMany()
    ensures CalibrationValue("a1b2c3d4e5f") == Ok(15)
  {
    CalibrationByPositions("a1b2c3d4e5f", 1, 9);
  }

  /** ...a lone digit is used twice: "treb7uchet" gives 77... */
  lemma ExampleLone()
    ensures CalibrationValue("treb7uchet") == Ok(77)
  {
    CalibrationByPositions("treb7uchet", 4, 4);
  }

  /** ...and "trebuchet" has no digit. */
  lemma ExampleNone()
    ensures CalibrationValue("trebuchet") == Err(NoDigitsFound)
  {
    CalibrationError("trebuchet");
  }
}
