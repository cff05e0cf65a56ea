/**
 * Not Quite Lisp (2015 day 1): Santa walks the floors of a building, one
 * floor up for '(' and one floor down for ')'. The answers are the floor
 * reached at the end of the first input line, and the 1-based position of
 * the character that first takes Santa to floor -1 (0 when that never
 * happens).
 */
module Floors {
  import opened Ints
  import opened Text

  /** The floor change of one character; any other character changes nothing. */
  function Delta(c: char): int {
    match c
    case '(' => 1
    case ')' => -1
    case _ => 0
  }

  /** The floor after the characters of `s`, starting from the ground floor 0. */
  function Floor(s: string): int {
    if |s| == 0 then 0 else Floor(s[..|s| - 1]) + Delta(s[|s| - 1])
  }

  /** The final floor is the number of '(' less the number of ')'. */
  lemma {:induction false} FloorCounts(s: string)
    ensures Floor(s) == Count(s, '(') - Count(s, ')')
  {
    if |s| > 0 {
      FloorCounts(s[..|s| - 1]);
    }
  }

  /** Every character moves at most one floor, so the floor never strays farther than the length. */
  lemma {:induction false} FloorBound(s: string)
    ensures -|s| <= Floor(s) <= |s|
  {
    if |s| > 0 {
      FloorBound(s[..|s| - 1]);
    }
  }

  /**
   * The 1-based position of the first character after which the floor is
   * -1, or 0 when there is none: once found, the position is kept.
   */
  function BasementStep(s: string): nat {
    if |s| == 0 then 0
    else if BasementStep(s[..|s| - 1]) != 0 then BasementStep(s[..|s| - 1])
    else if Floor(s) == -1 then |s|
    else 0
  }

  /** Some prefix of length 1 to `n` of `s` ends on floor -1. */
  predicate ReachesBasement(s: string, n: nat)
    requires n <= |s|
  {
    exists i :: 1 <= i <= n && Floor(s[..i]) == -1
  }

  /**
   * The basement step is the first prefix length that ends on floor -1:
   * it is 0 exactly when no prefix does, and otherwise no shorter prefix
   * does.
   */
  lemma {:induction false} BasementStepFirst(s: string)
    ensures BasementStep(s) == 0 <==> !ReachesBasement(s, |s|)
    ensures BasementStep(s) != 0 ==>
      BasementStep(s) <= |s| && Floor(s[..BasementStep(s)]) == -1 && !ReachesBasement(s, BasementStep(s) - 1)
  {
    if |s| > 0 {
      var front := s[..|s| - 1];
      BasementStepFirst(front);
      assert forall i :: 0 <= i <= |front| ==> front[..i] == s[..i];
      assert s[..|s|] == s;
      if BasementStep(front) == 0 && Floor(s) != -1 {
        if ReachesBasement(s, |s|) {
          var i :| 1 <= i <= |s| && Floor(s[..i]) == -1;
          assert ReachesBasement(front, |front|);
        }
      }
    }
  }

  /** Once Santa has entered the basement, reading on does not change the step. */
  lemma {:induction false} BasementStepKept(s: string, t: string)
    requires BasementStep(s) != 0
    ensures BasementStep(s + t) == BasementStep(s)
  {
    if |t| > 0 {
      var front := t[..|t| - 1];
      assert (s + t)[..|s + t| - 1] == s + front;
      BasementStepKept(s, front);
    } else {
      assert s + t == s;
    }
  }

  /** The floor and the basement step after one more character. */
  lemma WalkStep(line: string, i: nat)
    requires i < |line|
    ensures Floor(line[..i + 1]) == Floor(line[..i]) + Delta(line[i])
    ensures BasementStep(line[..i + 1]) ==
      if BasementStep(line[..i]) != 0 then BasementStep(line[..i])
      else if Floor(line[..i + 1]) == -1 then i + 1
      else 0
  {
    assert line[..i + 1][..i] == line[..i];
  }

  /**
   * The loop over the characters of the first line: the floor moves by each
   * character, and the first time it is -1 the 1-based index is recorded.
   * The floor is an `i32`, so the line is no longer than `i32::MAX`; an
   * input without any line has no `lines[0]`.
   */
  method Walk(lines: seq<string>) returns (floor: int, basementStep: nat)
    requires |lines| > 0 && |lines[0]| <= I32Max
    ensures floor == Floor(lines[0]) && InI32(floor)
    ensures basementStep == BasementStep(lines[0])
  {
    var line := lines[0];
    floor := 0;
    basementStep := 0;
    for index := 0 to |line|
      invariant floor == Floor(line[..index]) && InI32(floor)
      invariant basementStep == BasementStep(line[..index])
    {
      WalkStep(line, index);
      FloorBound(line[..index + 1]);
      floor := floor + Delta(line[index]);
      if floor == -1 && basementStep == 0 {
        basementStep := index + 1;
      }
    }
    assert line[..|line|] == line;
  }

  /** ")" enters the basement at the first character; "()())" at the fifth. */
  lemma BasementSamples(a: string, b: string)
    requires a == ")" && b == "()())"
    ensures BasementStep(a) == 1 && BasementStep(b) == 5
  {
    assert a[..0] == [];
    assert b[..5] == b && b[..0] == [];
    forall k | 1 <= k <= 5
      ensures b[..k][..k - 1] == b[..k - 1]
    {
    }
    assert Floor(b[..1]) == 1 && BasementStep(b[..1]) == 0;
    assert Floor(b[..2]) == 0 && BasementStep(b[..2]) == 0;
    assert Floor(b[..3]) == 1 && BasementStep(b[..3]) == 0;
    assert Floor(b[..4]) == 0 && BasementStep(b[..4]) == 0;
  }
}
