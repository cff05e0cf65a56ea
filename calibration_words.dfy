/**
 * Trebuchet calibration, part two (2023 day 1): digits may also be spelled
 * out as "zero" .. "nine". The line is scanned one position at a time; at
 * each position a digit character is kept as it is, otherwise the first
 * name that starts there contributes its digit. Names may overlap, since
 * the scan moves on by one position whether or not a name matched.
 */
module SpelledCalibration {
  import opened Wrappers
  import opened Text
  import opened Calibration

  /** The names looked for, indexed by their value (`digits_dictionary`). */
  const Names: seq<string> := ["zero", "one", "two", "three", "four", "five", "six", "seven", "eight", "nine"]

  /** `name` starts at position `index` of `s` (`starts_with` on the rest of the line). */
  predicate StartsAt(s: string, index: nat, name: string)
    requires index <= |s|
  {
    name <= s[index..]
  }

  /** The first name, from the `k`-th on, that starts at `index`. */
  function NameAt(s: string, index: nat, k: nat): (r: Option<nat>)
    requires index <= |s|
    ensures r.Some? ==> k <= r.value < |Names|
    decreases |Names| - k
  {
    if k >= |Names| then None
    else if StartsAt(s, index, Names[k]) then Some(k)
    else NameAt(s, index, k + 1)
  }

  /** The name found is one that starts there, and no earlier one does; none is found only when no name starts there. */
  lemma {:induction false} NameAtFirst(s: string, index: nat, k: nat)
    requires index <= |s|
    ensures NameAt(s, index, k).Some? ==> StartsAt(s, index, Names[NameAt(s, index, k).value])
    ensures NameAt(s, index, k).Some? ==> forall m :: k <= m < NameAt(s, index, k).value ==> !StartsAt(s, index, Names[m])
    ensures NameAt(s, index, k).None? ==> forall m :: k <= m < |Names| ==> !StartsAt(s, index, Names[m])
    decreases |Names| - k
  {
    if k < |Names| && !StartsAt(s, index, Names[k]) {
      NameAtFirst(s, index, k + 1);
    }
  }

  /** What one step of the scan keeps at `index`: the digit there, a spelled digit, or nothing. */
  function FoundAt(s: string, index: nat): (found: string)
    requires index < |s|
    ensures |found| <= 1 && forall k :: 0 <= k < |found| ==> IsDigit(found[k])
  {
    if IsDigit(s[index]) then [s[index]]
    else match NameAt(s, index, 0)
      case Some(k) => [DigitChar(k)]
      case None => []
  }

  /** Everything the scan keeps from `index` to the end. */
  function DigitsFrom(s: string, index: nat): (ds: string)
    requires index <= |s|
    ensures forall k :: 0 <= k < |ds| ==> IsDigit(ds[k])
    decreases |s| - index
  {
    if index == |s| then [] else FoundAt(s, index) + DigitsFrom(s, index + 1)
  }

  /**
   * `get_calibration_value` with spelled-out digits: the scan keeps the
   * digits it finds, and the first and last of them form the value.
   */
  method CalibrationValueWords(s: string) returns (r: Result<nat, string>)
    ensures r == Combine(DigitsFrom(s, 0))
  {
    var digits: string := [];
    var index: nat := 0;
    while index < |s|
      invariant index <= |s|
      invariant digits + DigitsFrom(s, index) == DigitsFrom(s, 0)
    {
      ghost var before := digits;
      if IsDigit(s[index]) {
        digits := digits + [s[index]];
      } else {
        for i := 0 to |Names|
          invariant digits == before
          invariant NameAt(s, index, 0) == NameAt(s, index, i)
        {
          if StartsAt(s, index, Names[i]) {
            digits := digits + [DigitChar(i)];
            break;
          }
        }
      }
      assert digits == before + FoundAt(s, index);
      Regroup(before, FoundAt(s, index), DigitsFrom(s, index + 1));
      index := index + 1;
    }
    assert digits + [] == digits;
    r := Combine(digits);
  }

  /** The value the scan produces, as a function for the lemmas below. */
  function WordsValue(s: string): Result<nat, string> {
    Combine(DigitsFrom(s, 0))
  }

  /** No name starts anywhere in `s` from `index` on. */
  predicate NoNames(s: string, index: nat)
    requires index <= |s|
  {
    forall i, k :: index <= i < |s| && 0 <= k < |Names| ==> !StartsAt(s, i, Names[k])
  }

  /** Without spelled names, part two keeps exactly the digits part one keeps. */
  lemma {:induction false} NoNamesDigits(s: string, index: nat)
    requires index <= |s| && NoNames(s, index)
    ensures DigitsFrom(s, index) == Digits(s[index..])
    decreases |s| - index
  {
    if index < |s| {
      assert NameAt(s, index, 0).None?;
      NoNamesDigits(s, index + 1);
      assert s[index..][1..] == s[index + 1..];
    }
  }

  /** So on such lines both parts agree. */
  lemma AgreesWithPartOne(s: string)
    requires NoNames(s, 0)
    ensures WordsValue(s) == CalibrationValue(s)
  {
    NoNamesDigits(s, 0);
    assert s[0..] == s;
  }

  /** The empty line has no digit. */
  lemma EmptyLine()
    ensures WordsValue("") == Err(NoDigitsFound)
  {
  }

  /** Some name opens with the letters `c`, `d`. */
  predicate Opening(c: char, d: char) {
    (c == 'z' && d == 'e') || (c == 'o' && d == 'n') || (c == 't' && (d == 'w' || d == 'h')) ||
    (c == 'f' && (d == 'o' || d == 'i')) || (c == 's' && (d == 'i' || d == 'e')) ||
    (c == 'e' && d == 'i') || (c == 'n' && d == 'i')
  }

  /**
   * Every name is longer than two letters and has an opening, and no two
   * names share their first two letters; so at most one name starts at any
   * position.
   */
  lemma NamesOpen()
    ensures forall k :: 0 <= k < |Names| ==> |Names[k]| >= 3 && Opening(Names[k][0], Names[k][1])
    ensures forall m, k :: 0 <= m < k < |Names| ==> Names[m][0] != Names[k][0] || Names[m][1] != Names[k][1]
  {
  }

  /** A non-digit position where no name's opening stands keeps nothing. */
  lemma Miss(s: string, i: nat)
    requires i < |s| && !IsDigit(s[i])
    requires i + 1 >= |s| || !Opening(s[i], s[i + 1])
    ensures FoundAt(s, i) == [] && DigitsFrom(s, i) == DigitsFrom(s, i + 1)
  {
    NamesOpen();
    forall k | 0 <= k < |Names|
      ensures !StartsAt(s, i, Names[k])
    {
    }
  }

  /** A non-digit position where the `k`-th name starts keeps the digit `k`. */
  lemma Hit(s: string, i: nat, k: nat)
    requires i < |s| && !IsDigit(s[i]) && k < |Names| && StartsAt(s, i, Names[k])
    ensures FoundAt(s, i) == [DigitChar(k)] && DigitsFrom(s, i) == [DigitChar(k)] + DigitsFrom(s, i + 1)
  {
    NamesOpen();
    forall m | 0 <= m < k
      ensures !StartsAt(s, i, Names[m])
    {
    }
  }

  /** The scan keeps whatever it keeps later on, so its last digit comes from the last position that keeps one. */
  lemma {:induction false} LastFrom(s: string, a: nat, b: nat)
    requires a <= b <= |s| && |DigitsFrom(s, b)| > 0
    ensures |DigitsFrom(s, a)| > 0
    ensures DigitsFrom(s, a)[|DigitsFrom(s, a)| - 1] == DigitsFrom(s, b)[|DigitsFrom(s, b)| - 1]
    decreases b - a
  {
    if a < b {
      LastFrom(s, a + 1, b);
    }
  }

  /** The end of "eightwothree": "three" is the last name. */
  lemma EightTwoThreeTail(s: string)
    requires s == "eightwothree"
    ensures DigitsFrom(s, 7) == "3"
  {
    assert DigitsFrom(s, 12) == [];
    Miss(s, 11);
    Miss(s, 10);
    Miss(s, 9);
    Miss(s, 8);
    Hit(s, 7, 3);
  }

  /** "eightwothree" gives 83: "eight" opens the line and "three" closes it. */
  lemma EightTwoThree(s: string)
    requires s == "eightwothree"
    ensures WordsValue(s) == Ok(83)
  {
    EightTwoThreeTail(s);
    Hit(s, 0, 8);
    LastFrom(s, 0, 7);
  }

  /** "zoneight234" gives 14: "one" after a 'z' that opens nothing, and the digit 4 last. */
  lemma ZoneEight(s: string)
    requires s == "zoneight234"
    ensures WordsValue(s) == Ok(14)
  {
    assert DigitsFrom(s, 10) == "4";
    Hit(s, 1, 1);
    Miss(s, 0);
    LastFrom(s, 0, 10);
  }

  /** Overlapping names both count: in "twone" the 'o' of "two" opens "one", and the value is 21. */
  lemma TwoOne(s: string)
    requires s == "twone"
    ensures DigitsFrom(s, 0) == "21" && WordsValue(s) == Ok(21)
  {
    assert DigitsFrom(s, 5) == [];
    Miss(s, 4);
    Miss(s, 3);
    Hit(s, 2, 1);
    Miss(s, 1);
    Hit(s, 0, 2);
  }

  /** A lone name is used twice: "one" gives 11... */
  lemma SpelledOne(s: string)
    requires s == "one"
    ensures WordsValue(s) == Ok(11)
  {
    assert DigitsFrom(s, 3) == [];
    Miss(s, 2);
    Miss(s, 1);
    Hit(s, 0, 1);
  }

  /** ...and "zero" is recognised and gives 0. */
  lemma SpelledZero(s: string)
    requires s == "zero"
    ensures WordsValue(s) == Ok(0)
  {
    assert DigitsFrom(s, 4) == [];
    Miss(s, 3);
    Miss(s, 2);
    Miss(s, 1);
    Hit(s, 0, 0);
  }

  /** "two1nine " gives 29: "two" opens the line and "nine" is the last name. */
  lemma TwoOneNine(s: string)
    requires s == "two1nine "
    ensures WordsValue(s) == Ok(29)
  {
    assert DigitsFrom(s, 9) == [];
    Miss(s, 8);
    Miss(s, 7);
    Miss(s, 6);
    Miss(s, 5);
    Hit(s, 4, 9);
    Hit(s, 0, 2);
    LastFrom(s, 0, 4);
  }

  /** The first kept digit opens the value and the last kept digit closes it. */
  lemma ValueFromEnds(s: string, i: nat, j: nat, first: char, last: char)
    requires i <= j <= |s| && IsDigit(first) && IsDigit(last)
    requires DigitsFrom(s, 0) == [first] + DigitsFrom(s, i)
    requires |DigitsFrom(s, j)| > 0 && DigitsFrom(s, j)[|DigitsFrom(s, j)| - 1] == last
    ensures WordsValue(s) == Ok(10 * DigitValue(first) + DigitValue(last))
  {
    LastFrom(s, i, j);
    var ds, rest := DigitsFrom(s, 0), DigitsFrom(s, i);
    assert ds[0] == first;
    assert ds[|ds| - 1] == rest[|rest| - 1] == last;
    var r := Combine(ds);
    assert r.Ok? && r.value == 10 * DigitValue(first) + DigitValue(last);
  }

  /** "abcone2threexyz " gives 13: letters that open no name are passed over. */
  lemma AbcOneThree(s: string)
    requires s == "abcone2threexyz "
    ensures WordsValue(s) == Ok(13)
  {
    AbcOneThreeHead(s);
    AbcOneThreeTail(s);
    ValueFromEnds(s, 4, 7, '1', '3');
  }

  /** The start of "abcone2threexyz ": "one" is the first name. */
  lemma AbcOneThreeHead(s: string)
    requires s == "abcone2threexyz "
    ensures DigitsFrom(s, 0) == "1" + DigitsFrom(s, 4)
  {
    Hit(s, 3, 1);
    AbcSkipped(s);
  }

  /** "abc" spells nothing. */
  lemma AbcSkipped(s: string)
    requires s == "abcone2threexyz "
    ensures DigitsFrom(s, 0) == DigitsFrom(s, 3)
  {
    Miss(s, 2);
    Miss(s, 1);
    Miss(s, 0);
  }

  /** The end of "abcone2threexyz ": "three" is the last name... */
  lemma AbcOneThreeTail(s: string)
    requires s == "abcone2threexyz "
    ensures DigitsFrom(s, 7) == "3"
  {
    AbcOneThreeEnd(s);
    Miss(s, 11);
    Miss(s, 10);
    Miss(s, 9);
    Miss(s, 8);
    Hit(s, 7, 3);
  }

  /** ...and "xyz " spells nothing. */
  lemma AbcOneThreeEnd(s: string)
    requires s == "abcone2threexyz "
    ensures DigitsFrom(s, 12) == []
  {
    assert DigitsFrom(s, 16) == [];
    Miss(s, 15);
    Miss(s, 14);
    Miss(s, 13);
    Miss(s, 12);
  }

  /** "xtwone3four " gives 24: "two" is found first, though "one" overlaps it. */
  lemma XTwoFour(s: string)
    requires s == "xtwone3four "
    ensures WordsValue(s) == Ok(24)
  {
    XTwoFourTail(s);
    Hit(s, 1, 2);
    Miss(s, 0);
    ValueFromEnds(s, 2, 7, '2', '4');
  }

  /** The end of "xtwone3four ": "four" is the last name. */
  lemma XTwoFourTail(s: string)
    requires s == "xtwone3four "
    ensures DigitsFrom(s, 7) == "4"
  {
    assert DigitsFrom(s, 12) == [];
    Miss(s, 11);
    Miss(s, 10);
    Miss(s, 9);
    Miss(s, 8);
    Hit(s, 7, 4);
  }

  /** "4nineeightseven2 " gives 42: digit characters at both ends win over the names between. */
  lemma FourNineTwo(s: string)
    requires s == "4nineeightseven2 "
    ensures WordsValue(s) == Ok(42)
  {
    assert DigitsFrom(s, 17) == [];
    Miss(s, 16);
    assert DigitsFrom(s, 15) == "2";
    assert DigitsFrom(s, 0) == "4" + DigitsFrom(s, 1);
    LastFrom(s, 0, 15);
  }

  /** "7pqrstsixteen " gives 76: "six" is read, and "teen" spells nothing. */
  lemma SevenSixteen(s: string)
    requires s == "7pqrstsixteen "
    ensures WordsValue(s) == Ok(76)
  {
    SevenSixteenTail(s);
    assert DigitsFrom(s, 0) == "7" + DigitsFrom(s, 1);
    LastFrom(s, 0, 6);
  }

  /** The end of "7pqrstsixteen ": "six" is the last name. */
  lemma SevenSixteenTail(s: string)
    requires s == "7pqrstsixteen "
    ensures DigitsFrom(s, 6) == "6"
  {
    assert DigitsFrom(s, 14) == [];
    Miss(s, 13);
    Miss(s, 12);
    Miss(s, 11);
    Miss(s, 10);
    Miss(s, 9);
    Miss(s, 8);
    Miss(s, 7);
    Hit(s, 6, 6);
  }
}
