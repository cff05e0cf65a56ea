/**
 * Reactor reports (2024 day 2): a report is a line of small unsigned
 * levels. It is safe when the levels move in one direction and every
 * adjacent step is between 1 and 3; the problem dampener also accepts a
 * report that becomes safe after removing a single level.
 */
module Reports {
  import opened Wrappers
  import opened Text

  /** A level is a `u8`. */
  type Level = n: nat | n <= 255

  datatype ReportCreationError = ParseError | EmptyReport

  datatype ReportSafety = Safe | Unsafe

  /** One whitespace token read as a `u8`. */
  function ParseLevel(t: string): (r: Option<Level>)
    ensures r.Some? ==> |t| > 0
  {
    match ParseUnsigned(t, 255)
    case Some(n) => Some(n)
    case None => None
  }

  /** The tokens read in order; the first token that is not a `u8` makes the whole list a parse error. */
  function ParseLevels(tokens: seq<string>): (r: Result<seq<Level>, ReportCreationError>)
    ensures r.Ok? ==> |r.value| == |tokens|
    ensures r.Err? ==> r.error == ParseError
  {
    if |tokens| == 0 then Ok([])
    else
      match ParseLevels(tokens[..|tokens| - 1])
      case Err(e) => Err(e)
      case Ok(ls) =>
        match ParseLevel(tokens[|tokens| - 1])
        case None => Err(ParseError)
        case Some(l) => Ok(ls + [l])
  }

  /** `Report::parse`: split on whitespace, read every token, reject an empty report. */
  function Parse(s: string): (r: Result<seq<Level>, ReportCreationError>)
    ensures r == Err(EmptyReport) <==> |Words(s)| == 0
    ensures r.Ok? ==> |r.value| == |Words(s)| > 0
  {
    match ParseLevels(Words(s))
    case Err(e) => Err(e)
    case Ok(ls) => if |ls| == 0 then Err(EmptyReport) else Ok(ls)
  }

  /** The parsed levels are exactly the tokens' values, in input order, when every token is a `u8`. */
  lemma {:induction false} ParseLevelsExact(tokens: seq<string>)
    ensures ParseLevels(tokens).Ok? <==> forall i :: 0 <= i < |tokens| ==> ParseLevel(tokens[i]).Some?
    ensures ParseLevels(tokens).Ok? ==>
      forall i :: 0 <= i < |tokens| ==> ParseLevels(tokens).value[i] == ParseLevel(tokens[i]).value
  {
    if |tokens| > 0 {
      var init := tokens[..|tokens| - 1];
      ParseLevelsExact(init);
      assert forall i :: 0 <= i < |init| ==> init[i] == tokens[i];
    }
  }

  /** Parsing succeeds exactly on a non-blank line of `u8` tokens, and keeps every token's value in order. */
  lemma ParseSucceeds(s: string)
    ensures Parse(s).Ok? <==>
      !AllBlank(s) && forall i :: 0 <= i < |Words(s)| ==> ParseLevel(Words(s)[i]).Some?
    ensures Parse(s).Ok? ==>
      |Parse(s).value| == |Words(s)| &&
      forall i :: 0 <= i < |Words(s)| ==> Parse(s).value[i] == ParseLevel(Words(s)[i]).value
  {
    ParseLevelsExact(Words(s));
    WordsOfBlank(s);
  }

  /** A blank line is an empty report, not a parse error. */
  lemma ParseBlank(s: string)
    requires AllBlank(s)
    ensures Parse(s) == Err(EmptyReport)
  {
    WordsOfBlank(s);
  }

  /** A line with a token that is not a `u8` is a parse error, wherever the token stands. */
  lemma ParseBadToken(s: string, i: nat)
    requires i < |Words(s)| && ParseLevel(Words(s)[i]).None?
    ensures Parse(s) == Err(ParseError)
  {
    ParseLevelsExact(Words(s));
  }

  /** Tokens such as "a", "2b", "3.14", "3,14" and "-14" are not levels. */
  lemma RejectedTokens()
    ensures ParseLevel("a").None? && ParseLevel("2b").None? && ParseLevel("3.14").None?
    ensures ParseLevel("3,14").None? && ParseLevel("-14").None? && ParseLevel("256").None?
  {
    assert !IsDigits("a") by { assert "a"[0] == 'a'; }
    assert !IsDigits("2b") by { assert "2b"[1] == 'b'; }
    assert !IsDigits("3.14") by { assert "3.14"[1] == '.'; }
    assert !IsDigits("3,14") by { assert "3,14"[1] == ','; }
    assert !IsDigits("-14") by { assert "-14"[0] == '-'; }
    assert DecimalValue("256") == 256 by {
      assert "256"[..2] == "25" && "25"[..1] == "2" && "2"[..0] == "";
    }
  }

  /** |a - b| as `u8::abs_diff` computes it. */
  function AbsDiff(a: int, b: int): nat
  {
    if a < b then b - a else a - b
  }

  /** `test_diff`: every adjacent pair differs by 1 to 3 inclusive. */
  predicate StepsInRange(levels: seq<Level>)
  {
    forall i :: 0 <= i < |levels| - 1 ==> 1 <= AbsDiff(levels[i], levels[i + 1]) <= 3
  }

  /**
   * `test_inc_or_dec`: the direction is fixed by the first two levels
   * (descending when the first is strictly greater), and no adjacent pair
   * may go the other way. Equal neighbours pass.
   */
  predicate DirectionKept(levels: seq<Level>)
    requires |levels| >= 2
  {
    var descending := levels[0] > levels[1];
    forall i :: 0 <= i < |levels| - 1 ==>
      !(descending && levels[i] < levels[i + 1]) && !(!descending && levels[i] > levels[i + 1])
  }

  /** No two adjacent levels are equal. */
  predicate NoFlatStep(levels: seq<Level>)
  {
    forall i :: 0 <= i < |levels| - 1 ==> levels[i] != levels[i + 1]
  }

  /** `test_safelty`; the steps are checked first, then the direction. */
  function Safety(levels: seq<Level>): (r: ReportSafety)
    requires |levels| >= 2
    ensures r == Safe ==> NoFlatStep(levels)
    ensures r == Safe ==> (levels[0] < levels[1] <==> levels[|levels| - 2] < levels[|levels| - 1])
  {
    if !StepsInRange(levels) || !DirectionKept(levels) then Unsafe else Safe
  }

  /** Strictly increasing by 1 to 3 at every step. */
  predicate GraduallyIncreasing(levels: seq<Level>)
  {
    forall i :: 0 <= i < |levels| - 1 ==> levels[i] < levels[i + 1] <= levels[i] as int + 3
  }

  /** Strictly decreasing by 1 to 3 at every step. */
  predicate GraduallyDecreasing(levels: seq<Level>)
  {
    forall i :: 0 <= i < |levels| - 1 ==> levels[i + 1] < levels[i] <= levels[i + 1] as int + 3
  }

  /** A report is safe exactly when it increases gradually or decreases gradually. */
  lemma SafeIffGradual(levels: seq<Level>)
    requires |levels| >= 2
    ensures Safety(levels) == Safe <==> GraduallyIncreasing(levels) || GraduallyDecreasing(levels)
  {
    if Safety(levels) == Safe {
      if levels[0] > levels[1] {
        assert GraduallyDecreasing(levels);
      } else {
        assert GraduallyIncreasing(levels);
      }
    }
    if GraduallyIncreasing(levels) {
      assert levels[0] < levels[1];
    }
    if GraduallyDecreasing(levels) {
      assert levels[0] > levels[1];
    }
  }

  /**
   * The direction test alone accepts a report that first stays level and
   * then falls: the equal first pair fixes the direction as ascending.
   */
  lemma LevelStartFixesAscending()
    ensures !DirectionKept([5, 5, 3])
  {
    var l: seq<Level> := [5, 5, 3];
    assert l[1] > l[2];
  }

  /** `test_inc_or_dec` walks adjacent pairs and returns at the first pair going the wrong way. */
  method TestIncOrDec(levels: seq<Level>) returns (ok: bool)
    requires |levels| >= 2
    ensures ok == DirectionKept(levels)
  {
    var descending := levels[0] > levels[1];
    var i := 0;
    while i < |levels|
      invariant 0 <= i <= |levels|
      invariant forall j :: 0 <= j < i && j < |levels| - 1 ==>
        !(descending && levels[j] < levels[j + 1]) && !(!descending && levels[j] > levels[j + 1])
    {
      if i + 1 < |levels| {
        var a, b := levels[i], levels[i + 1];
        if (descending && a < b) || (!descending && a > b) {
          return false;
        }
      }
      i := i + 1;
    }
    return true;
  }

  /** `test_diff` walks adjacent pairs and returns at the first step outside 1 to 3. */
  method TestDiff(levels: seq<Level>) returns (ok: bool)
    ensures ok == StepsInRange(levels)
  {
    var i := 0;
    while i < |levels|
      invariant 0 <= i <= |levels|
      invariant forall j :: 0 <= j < i && j < |levels| - 1 ==> 1 <= AbsDiff(levels[j], levels[j + 1]) <= 3
    {
      if i + 1 < |levels| {
        var diff := AbsDiff(levels[i], levels[i + 1]);
        if diff < 1 || diff > 3 {
          return false;
        }
      }
      i := i + 1;
    }
    return true;
  }

  /**
   * `test_safelty`. The direction test indexes the second level, and it is
   * reached whenever the step test passes, which it always does for fewer
   * than two levels: so the report needs two levels.
   */
  method TestSafety(levels: seq<Level>) returns (s: ReportSafety)
    requires |levels| >= 2
    ensures s == Safe <==> GraduallyIncreasing(levels) || GraduallyDecreasing(levels)
    ensures s == Safety(levels)
  {
    var steps := TestDiff(levels);
    if !steps {
      s := Unsafe;
    } else {
      var direction := TestIncOrDec(levels);
      s := if direction then Safe else Unsafe;
    }
    SafeIffGradual(levels);
  }

  /** `Vec::remove(i)`: the levels without the one at index `i`. */
  function Remove(levels: seq<Level>, i: nat): (r: seq<Level>)
    requires i < |levels|
    ensures |r| == |levels| - 1
    ensures forall j :: 0 <= j < i ==> r[j] == levels[j]
    ensures forall j :: i <= j < |r| ==> r[j] == levels[j + 1]
  {
    levels[..i] + levels[i + 1..]
  }

  /** The dampened verdict: safe as is, or safe once some single level is removed. */
  predicate DampenedSafe(levels: seq<Level>)
    requires |levels| >= 2
    requires Safety(levels) == Safe || |levels| >= 3
  {
    Safety(levels) == Safe || exists i :: 0 <= i < |levels| && Safety(Remove(levels, i)) == Safe
  }

  /**
   * `test_safelty_with_problem_dampener`. After an unsafe verdict every
   * removal is checked, and a report of two levels would leave one, which
   * the direction test cannot index: so an unsafe report needs three.
   */
  method TestSafetyWithProblemDampener(levels: seq<Level>) returns (s: ReportSafety)
    requires |levels| >= 2
    requires Safety(levels) == Safe || |levels| >= 3
    ensures s == Safe <==> DampenedSafe(levels)
  {
    var whole := TestSafety(levels);
    if whole == Safe {
      return Safe;
    }
    for i := 0 to |levels|
      invariant !SafeRemovalBelow(levels, i)
    {
      var shorter := Remove(levels, i);
      var verdict := TestSafety(shorter);
      if verdict == Safe {
        return Safe;
      }
    }
    forall j | 0 <= j < |levels|
      ensures Safety(Remove(levels, j)) == Unsafe
    {
      if Safety(Remove(levels, j)) == Safe {
        SafeRemovalFrom(levels, |levels|, j);
      }
    }
    return Unsafe;
  }

  /** Removing one of the first `n` levels makes the report safe. */
  ghost predicate SafeRemovalBelow(levels: seq<Level>, n: nat)
    requires 3 <= |levels| && n <= |levels|
  {
    n > 0 && (SafeRemovalBelow(levels, n - 1) || Safety(Remove(levels, n - 1)) == Safe)
  }

  /** A safe removal at any index below `n` is one of the first `n` removals. */
  lemma {:induction false} SafeRemovalFrom(levels: seq<Level>, n: nat, j: nat)
    requires 3 <= |levels| && j < n <= |levels|
    requires Safety(Remove(levels, j)) == Safe
    ensures SafeRemovalBelow(levels, n)
    decreases n
  {
    if j < n - 1 {
      SafeRemovalFrom(levels, n - 1, j);
    }
  }

  /** A safe report of three or more levels stays safe when its first or last level is removed. */
  lemma SafeWithoutEnds(levels: seq<Level>)
    requires |levels| >= 3 && Safety(levels) == Safe
    ensures Safety(Remove(levels, 0)) == Safe
    ensures Safety(Remove(levels, |levels| - 1)) == Safe
  {
    SafeIffGradual(levels);
    var n := |levels|;
    assert Remove(levels, 0) == levels[1..n];
    assert Remove(levels, n - 1) == levels[0..n - 1];
    GradualSlice(levels, 1, n);
    GradualSlice(levels, 0, n - 1);
    SafeIffGradual(levels[1..n]);
    SafeIffGradual(levels[0..n - 1]);
  }

  /** A run of consecutive levels of a gradual report is gradual the same way. */
  lemma GradualSlice(levels: seq<Level>, lo: nat, hi: nat)
    requires lo <= hi <= |levels|
    ensures GraduallyIncreasing(levels) ==> GraduallyIncreasing(levels[lo..hi])
    ensures GraduallyDecreasing(levels) ==> GraduallyDecreasing(levels[lo..hi])
  {
    var t := levels[lo..hi];
    forall i | 0 <= i < |t|
      ensures t[i] == levels[lo + i]
    {
    }
  }

  /** The safe verdicts the source's tests expect. */
  lemma SafetyExamples()
    ensures Safety([7, 6, 4, 2, 1]) == Safe
    ensures Safety([1, 3, 6, 7, 9]) == Safe
  {
  }

  /** The unsafe verdicts the source's tests expect for a step that is too large. */
  lemma UnsafeJumpExamples()
    ensures Safety([1, 2, 7, 8, 9]) == Unsafe
    ensures Safety([9, 7, 6, 2, 1]) == Unsafe
  {
    var a: seq<Level> := [1, 2, 7, 8, 9];
    assert AbsDiff(a[1], a[2]) == 5;
    var b: seq<Level> := [9, 7, 6, 2, 1];
    assert AbsDiff(b[2], b[3]) == 4;
  }

  /** The unsafe verdicts the source's tests expect for a turn and for a level step. */
  lemma UnsafeTurnExamples()
    ensures Safety([1, 3, 2, 4, 5]) == Unsafe
    ensures Safety([8, 6, 4, 4, 1]) == Unsafe
  {
    var c: seq<Level> := [1, 3, 2, 4, 5];
    assert c[1] > c[2];
    var d: seq<Level> := [8, 6, 4, 4, 1];
    assert AbsDiff(d[2], d[3]) == 0;
  }

  /** The dampened verdicts the source's tests expect: one removal rescues these two reports. */
  lemma DampenerRescues()
    ensures DampenedSafe([1, 3, 2, 4, 5])
    ensures DampenedSafe([8, 6, 4, 4, 1])
  {
    var c: seq<Level> := [1, 3, 2, 4, 5];
    assert Remove(c, 1) == [1, 2, 4, 5];
    assert Safety(Remove(c, 1)) == Safe;
    var d: seq<Level> := [8, 6, 4, 4, 1];
    assert Remove(d, 2) == [8, 6, 4, 1];
    assert Safety(Remove(d, 2)) == Safe;
  }

  /** The dampened verdict the source's tests expect: no removal rescues a jump of five. */
  lemma DampenerKeepsJump()
    ensures !DampenedSafe([1, 2, 7, 8, 9])
  {
    var a: seq<Level> := [1, 2, 7, 8, 9];
    assert Safety(a) == Unsafe by {
      assert AbsDiff(a[1], a[2]) == 5;
    }
    forall i | 0 <= i < 5 ensures Safety(Remove(a, i)) == Unsafe {
      var r := Remove(a, i);
      if i <= 1 {
        assert AbsDiff(r[0], r[1]) >= 5;
      } else {
        assert AbsDiff(r[1], r[2]) >= 5;
      }
    }
  }

  /** The dampened verdict the source's tests expect: no removal rescues a drop of four. */
  lemma DampenerKeepsDrop()
    ensures !DampenedSafe([9, 7, 6, 2, 1])
  {
    var b: seq<Level> := [9, 7, 6, 2, 1];
    assert Safety(b) == Unsafe by {
      assert AbsDiff(b[2], b[3]) == 4;
    }
    forall i | 0 <= i < 5 ensures Safety(Remove(b, i)) == Unsafe {
      var r := Remove(b, i);
      if i <= 2 {
        assert AbsDiff(r[1], r[2]) >= 4;
      } else {
        assert AbsDiff(r[2], r[3]) >= 4;
      }
    }
  }
}
