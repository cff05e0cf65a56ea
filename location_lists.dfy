/**
 * Historian hysteria (2024 day 1): each line of the input holds one
 * location ID of the left list and one of the right list. The total
 * distance pairs the smallest left ID with the smallest right ID, the
 * second smallest with the second smallest and so on, and adds up how far
 * apart each pair is; the similarity adds up every left ID times the
 * number of times it appears in the right list.
 *
 * The IDs and sums are `u32` in the source; the model computes on
 * unbounded naturals and states as preconditions that the sums fit, where
 * the source would overflow.
 */
module LocationLists {
  import opened Wrappers
  import opened Ints
  import opened Text

  /** `get_distance_between_numbers`: how far apart two IDs are (`abs_diff`). */
  function Distance(a: nat, b: nat): (d: nat)
    ensures a + d == b || b + d == a
  {
    if a <= b then b - a else a - b
  }

  /** The distance is symmetric and vanishes exactly on equal IDs. */
  lemma DistanceSymmetric(a: nat, b: nat)
    ensures Distance(a, b) == Distance(b, a)
    ensures Distance(a, b) == 0 <==> a == b
  {
  }

  /** The distances the source's tests expect. */
  lemma DistanceExamples()
    ensures Distance(1, 3) == 2 && Distance(2, 3) == 1 && Distance(3, 3) == 0 && Distance(3, 4) == 1
    ensures Distance(3, 5) == 2 && Distance(4, 9) == 5 && Distance(3, 1) == 2
  {
  }

  /** One field of a line as a `u32`, or 0 when it does not parse (`unwrap_or(0)`). */
  function Field(t: string): (v: nat)
    ensures v <= U32Max
    ensures ParseUnsigned(t, U32Max).Some? ==> v == ParseUnsigned(t, U32Max).value
    ensures ParseUnsigned(t, U32Max).None? ==> v == 0
  {
    match ParseUnsigned(t, U32Max)
    case Some(v) => v
    case None => 0
  }

  /**
   * `parse_line_to_tuple`: the first five characters are the left ID and
   * everything from the ninth on is the right ID. A line too short for
   * either slice gives nothing; a slice that does not parse gives 0.
   */
  function ParseLine(line: string): (r: Option<(nat, nat)>)
    ensures r.Some? <==> |line| >= 8
    ensures r.Some? ==> r.value == (Field(line[..5]), Field(line[8..]))
  {
    if 5 <= |line| && 8 <= |line| then Some((Field(line[..5]), Field(line[8..]))) else None
  }

  /** An ID of exactly five digits has a five-character rendering. */
  lemma FiveDigits(a: nat)
    requires 10000 <= a <= 99999
    ensures |DecimalString(a)| == 5
  {
    var a1 := a / 10;
    var a2 := a1 / 10;
    var a3 := a2 / 10;
    var a4 := a3 / 10;
    assert |DecimalString(a4)| == 1;
    assert |DecimalString(a3)| == 2;
    assert |DecimalString(a2)| == 3;
    assert |DecimalString(a1)| == 4;
  }

  /** A line laid out as in the puzzle input, a five-digit ID, three spaces and an ID, reads back as the pair. */
  lemma ParseRendered(a: nat, b: nat)
    requires 10000 <= a <= 99999 && b <= U32Max
    ensures ParseLine(DecimalString(a) + "   " + DecimalString(b)) == Some((a, b))
  {
    var line := DecimalString(a) + "   " + DecimalString(b);
    FiveDigits(a);
    assert line[..5] == DecimalString(a);
    assert line[8..] == DecimalString(b);
    UnsignedStringParses(a, U32Max);
    UnsignedStringParses(b, U32Max);
  }

  /** A five-digit field, read digit by digit. */
  lemma FieldOfDigits(t: string, a: char, b: char, c: char, d: char, e: char)
    requires t == [a, b, c, d, e] && IsDigit(a) && IsDigit(b) && IsDigit(c) && IsDigit(d) && IsDigit(e)
    requires (((DigitValue(a) * 10 + DigitValue(b)) * 10 + DigitValue(c)) * 10 + DigitValue(d)) * 10 + DigitValue(e) <= U32Max
    ensures Field(t) == (((DigitValue(a) * 10 + DigitValue(b)) * 10 + DigitValue(c)) * 10 + DigitValue(d)) * 10 + DigitValue(e)
  {
    var t1, t2, t3, t4 := [a], [a, b], [a, b, c], [a, b, c, d];
    assert t1[..0] == [] && t2[..1] == t1 && t3[..2] == t2 && t4[..3] == t3 && t[..4] == t4;
    assert DecimalValue(t1) == DigitValue(a);
    assert DecimalValue(t2) == DigitValue(a) * 10 + DigitValue(b);
    assert DecimalValue(t3) == (DigitValue(a) * 10 + DigitValue(b)) * 10 + DigitValue(c);
    assert DecimalValue(t4) == ((DigitValue(a) * 10 + DigitValue(b)) * 10 + DigitValue(c)) * 10 + DigitValue(d);
    assert IsDigits(t) && t[0] != '+';
  }

  /** The line the source's test parses. */
  lemma ParseExample()
    ensures ParseLine("66845   37619") == Some((66845, 37619))
  {
    var line := "66845   37619";
    assert line[..5] == ['6', '6', '8', '4', '5'];
    assert line[8..] == ['3', '7', '6', '1', '9'];
    FieldOfDigits(line[..5], '6', '6', '8', '4', '5');
    FieldOfDigits(line[8..], '3', '7', '6', '1', '9');
  }

  /** A field that does not parse counts as 0. */
  lemma ParseLetters()
    ensures ParseLine("abcde   37619") == Some((0, 37619))
  {
    var line := "abcde   37619";
    assert !IsDigit(line[..5][0]);
    assert line[8..] == ['3', '7', '6', '1', '9'];
    FieldOfDigits(line[8..], '3', '7', '6', '1', '9');
  }

  /** The pairs of the lines that parse, in order. */
  function Parsed(lines: seq<string>): seq<(nat, nat)> {
    if |lines| == 0 then []
    else
      Parsed(lines[..|lines| - 1]) +
      match ParseLine(lines[|lines| - 1])
      case Some(p) => [p]
      case None => []
  }

  function Lefts(ps: seq<(nat, nat)>): seq<nat> {
    seq(|ps|, i requires 0 <= i < |ps| => ps[i].0)
  }

  function Rights(ps: seq<(nat, nat)>): seq<nat> {
    seq(|ps|, i requires 0 <= i < |ps| => ps[i].1)
  }

  /** The reading loop of `main`: each line that parses adds its IDs to the two lists. */
  method ReadLists(lines: seq<string>) returns (left: seq<nat>, right: seq<nat>)
    ensures left == Lefts(Parsed(lines)) && right == Rights(Parsed(lines))
    ensures |left| == |right|
  {
    left, right := [], [];
    for i := 0 to |lines|
      invariant left == Lefts(Parsed(lines[..i])) && right == Rights(Parsed(lines[..i]))
    {
      assert lines[..i + 1][..i] == lines[..i];
      match ParseLine(lines[i]) {
        case Some(p) =>
          left := left + [p.0];
          right := right + [p.1];
        case None =>
      }
    }
    assert lines[..|lines|] == lines;
  }

  predicate Sorted(xs: seq<nat>) {
    forall i, j :: 0 <= i < j < |xs| ==> xs[i] <= xs[j]
  }

  /** `x` placed before the first element not below it. */
  function Insert(x: nat, xs: seq<nat>): (r: seq<nat>)
    ensures |r| == |xs| + 1 && multiset(r) == multiset(xs) + multiset{x}
    ensures r[0] == x || (|xs| > 0 && r[0] == xs[0])
  {
    if |xs| == 0 then [x]
    else if x <= xs[0] then [x] + xs
    else
      assert xs == [xs[0]] + xs[1..];
      [xs[0]] + Insert(x, xs[1..])
  }

  /** Inserting into a sorted list keeps it sorted. */
  lemma {:induction false} InsertSorted(x: nat, xs: seq<nat>)
    requires Sorted(xs)
    ensures Sorted(Insert(x, xs))
  {
    if |xs| > 0 && x > xs[0] {
      InsertSorted(x, xs[1..]);
      var t := Insert(x, xs[1..]);
      assert t[0] >= xs[0];
    }
  }

  /** `sort`: the same IDs in ascending order. */
  function Sort(xs: seq<nat>): (r: seq<nat>)
    ensures |r| == |xs| && Sorted(r) && multiset(r) == multiset(xs)
  {
    if |xs| == 0 then []
    else
      assert xs == [xs[0]] + xs[1..];
      InsertSorted(xs[0], Sort(xs[1..]));
      Insert(xs[0], Sort(xs[1..]))
  }

  /** Sum of the distances of the pairs at equal positions of `xs` and `ys`. */
  function DistanceSum(xs: seq<nat>, ys: seq<nat>): nat
    requires |xs| <= |ys|
  {
    if |xs| == 0 then 0 else DistanceSum(xs[..|xs| - 1], ys) + Distance(xs[|xs| - 1], ys[|xs| - 1])
  }

  /** A prefix of the pairs never sums to more than all of them. */
  lemma {:induction false} DistanceSumPrefix(xs: seq<nat>, ys: seq<nat>, i: nat)
    requires i <= |xs| <= |ys|
    ensures DistanceSum(xs[..i], ys) <= DistanceSum(xs, ys)
    decreases |xs| - i
  {
    if i < |xs| {
      DistanceSumPrefix(xs[..|xs| - 1], ys, i);
      assert xs[..|xs| - 1][..i] == xs[..i];
    } else {
      assert xs[..i] == xs;
    }
  }

  /** The two lists may trade places. */
  lemma {:induction false} DistanceSumSwap(xs: seq<nat>, ys: seq<nat>)
    requires |xs| == |ys|
    ensures DistanceSum(xs, ys) == DistanceSum(ys, xs)
  {
    if |xs| > 0 {
      DistanceSumSwap(xs[..|xs| - 1], ys[..|ys| - 1]);
      DistanceSumTail(xs[..|xs| - 1], ys);
      DistanceSumTail(ys[..|ys| - 1], xs);
    }
  }

  /** Only the first `|xs|` elements of `ys` take part. */
  lemma {:induction false} DistanceSumTail(xs: seq<nat>, ys: seq<nat>)
    requires |xs| < |ys|
    ensures DistanceSum(xs, ys) == DistanceSum(xs, ys[..|ys| - 1])
  {
    if |xs| > 0 {
      DistanceSumTail(xs[..|xs| - 1], ys);
    }
  }

  /** Two lists of the same length are zero apart exactly when they are equal. */
  lemma {:induction false} DistanceSumZero(xs: seq<nat>, ys: seq<nat>)
    requires |xs| == |ys|
    ensures DistanceSum(xs, ys) == 0 <==> xs == ys
  {
    if |xs| > 0 {
      var n := |xs| - 1;
      DistanceSumTail(xs[..n], ys);
      DistanceSumZero(xs[..n], ys[..n]);
      assert xs == xs[..n] + [xs[n]] && ys == ys[..n] + [ys[n]];
    }
  }

  /** The total distance loop of `main`. */
  method TotalDistance(left: seq<nat>, right: seq<nat>) returns (total: nat)
    requires |left| <= |right|
    requires DistanceSum(left, right) <= U32Max
    ensures total == DistanceSum(left, right)
  {
    total := 0;
    for i := 0 to |left|
      invariant total == DistanceSum(left[..i], right) <= U32Max
    {
      assert left[..i + 1][..i] == left[..i];
      DistanceSumPrefix(left, right, i + 1);
      total := total + Distance(left[i], right[i]);
    }
    assert left[..|left|] == left;
  }

  /** How many times `a` appears in `ys`. */
  function Occurrences(ys: seq<nat>, a: nat): nat {
    if |ys| == 0 then 0 else Occurrences(ys[..|ys| - 1], a) + (if ys[|ys| - 1] == a then 1 else 0)
  }

  /** Counting by scanning agrees with the multiset count, so it ignores order. */
  lemma {:induction false} OccurrencesMultiset(ys: seq<nat>, a: nat)
    ensures Occurrences(ys, a) == multiset(ys)[a]
  {
    if |ys| > 0 {
      OccurrencesMultiset(ys[..|ys| - 1], a);
      assert ys == ys[..|ys| - 1] + [ys[|ys| - 1]];
    }
  }

  /** Each left ID times its number of occurrences on the right, summed. */
  function SimilaritySum(xs: seq<nat>, ys: seq<nat>): nat {
    if |xs| == 0 then 0 else SimilaritySum(xs[..|xs| - 1], ys) + xs[|xs| - 1] * Occurrences(ys, xs[|xs| - 1])
  }

  /** The similarity adds up over a split of the left list. */
  lemma {:induction false} SimilarityAppend(xs: seq<nat>, zs: seq<nat>, ys: seq<nat>)
    ensures SimilaritySum(xs + zs, ys) == SimilaritySum(xs, ys) + SimilaritySum(zs, ys)
    decreases |zs|
  {
    if |zs| == 0 {
      assert xs + zs == xs;
    } else {
      var n := |zs| - 1;
      assert (xs + zs)[..|xs + zs| - 1] == xs + zs[..n];
      SimilarityAppend(xs, zs[..n], ys);
    }
  }

  /** A prefix of the left list never has more similarity than all of it. */
  lemma {:induction false} SimilarityPrefix(xs: seq<nat>, ys: seq<nat>, i: nat)
    requires i <= |xs|
    ensures SimilaritySum(xs[..i], ys) <= SimilaritySum(xs, ys)
  {
    assert xs == xs[..i] + xs[i..];
    SimilarityAppend(xs[..i], xs[i..], ys);
  }

  /** Reordering the right list does not change the similarity. */
  lemma {:induction false} SimilarityRightOrder(xs: seq<nat>, ys: seq<nat>, zs: seq<nat>)
    requires multiset(ys) == multiset(zs)
    ensures SimilaritySum(xs, ys) == SimilaritySum(xs, zs)
  {
    if |xs| > 0 {
      SimilarityRightOrder(xs[..|xs| - 1], ys, zs);
      OccurrencesMultiset(ys, xs[|xs| - 1]);
      OccurrencesMultiset(zs, xs[|xs| - 1]);
    }
  }

  /** Reordering the left list does not change the similarity either. */
  lemma {:induction false} SimilarityLeftOrder(xs: seq<nat>, zs: seq<nat>, ys: seq<nat>)
    requires multiset(xs) == multiset(zs)
    ensures SimilaritySum(xs, ys) == SimilaritySum(zs, ys)
    decreases |xs|
  {
    if |xs| > 0 {
      var n := |xs| - 1;
      var x := xs[n];
      assert xs == xs[..n] + [x];
      assert x in multiset(zs);
      var k :| 0 <= k < |zs| && zs[k] == x;
      assert zs == zs[..k] + [x] + zs[k + 1..];
      var rest := zs[..k] + zs[k + 1..];
      assert multiset(zs) == multiset(zs[..k]) + multiset{x} + multiset(zs[k + 1..]);
      assert multiset(xs) == multiset(xs[..n]) + multiset{x};
      assert multiset(rest) == multiset(zs[..k]) + multiset(zs[k + 1..]) == multiset(zs) - multiset{x};
      assert multiset(xs[..n]) == multiset(xs) - multiset{x};
      SimilarityLeftOrder(xs[..n], rest, ys);
      SimilarityAppend(zs[..k] + [x], zs[k + 1..], ys);
      SimilarityAppend(zs[..k], [x], ys);
      SimilarityAppend(zs[..k], zs[k + 1..], ys);
      assert [x][..0] == [];
    }
  }

  /** One more left ID: its term joins the prefix's similarity, which stays within the whole's. */
  lemma {:induction false} SimilarityStep(xs: seq<nat>, ys: seq<nat>, i: nat)
    requires i < |xs|
    ensures SimilaritySum(xs[..i + 1], ys) == SimilaritySum(xs[..i], ys) + xs[i] * Occurrences(ys, xs[i])
    ensures SimilaritySum(xs[..i + 1], ys) <= SimilaritySum(xs, ys)
  {
    assert xs[..i + 1][..i] == xs[..i];
    SimilarityPrefix(xs, ys, i + 1);
  }

  /** The similarity loop of `main`: an inner scan counts each left ID on the right. */
  method Similarity(left: seq<nat>, right: seq<nat>) returns (similarity: nat)
    requires SimilaritySum(left, right) <= U32Max
    ensures similarity == SimilaritySum(left, right)
  {
    similarity := 0;
    for aIndex := 0 to |left|
      invariant similarity == SimilaritySum(left[..aIndex], right) <= U32Max
    {
      var a := left[aIndex];
      var occurrences := 0;
      for j := 0 to |right|
        invariant occurrences == Occurrences(right[..j], a)
      {
        assert right[..j + 1][..j] == right[..j];
        if a == right[j] {
          occurrences := occurrences + 1;
        }
      }
      assert right[..|right|] == right;
      SimilarityStep(left, right, aIndex);
      assert similarity + a * occurrences == SimilaritySum(left[..aIndex + 1], right);
      similarity := similarity + a * occurrences;
    }
    assert left[..|left|] == left;
  }

  /**
   * Lines 13-49 of `main` as one computation: the lists read from the
   * lines, sorted, then the total distance of the sorted lists and their
   * similarity. The similarity is that of the lists as read, since neither
   * sort changes it.
   */
  method Solve(lines: seq<string>) returns (distance: nat, similarity: nat)
    requires DistanceSum(Sort(Lefts(Parsed(lines))), Sort(Rights(Parsed(lines)))) <= U32Max
    requires SimilaritySum(Lefts(Parsed(lines)), Rights(Parsed(lines))) <= U32Max
    ensures distance == DistanceSum(Sort(Lefts(Parsed(lines))), Sort(Rights(Parsed(lines))))
    ensures similarity == SimilaritySum(Lefts(Parsed(lines)), Rights(Parsed(lines)))
  {
    var left, right := ReadLists(lines);
    ghost var readLeft, readRight := left, right;
    left := Sort(left);
    right := Sort(right);
    assert |left| == |multiset(left)| == |multiset(right)| == |right|;
    distance := TotalDistance(left, right);
    SimilarityLeftOrder(readLeft, left, readRight);
    SimilarityRightOrder(left, readRight, right);
    similarity := Similarity(left, right);
  }
}
