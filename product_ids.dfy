/**
 * Gift shop product IDs (2025 day 2): the input is a comma-separated list
 * of ID ranges `start-end`. An ID is invalid when its decimal rendering is
 * some digit sequence written twice; the answer is the sum of the invalid
 * IDs in all well-formed ranges.
 */
module ProductIds {
  import opened Wrappers
  import opened Text
  import opened JsNumbers

  /** One range text split on '-', each part through `parseInt`. */
  function ParseRange(text: string): (values: seq<Option<nat>>)
    ensures |values| == |Split(text, '-')|
  {
    var parts := Split(text, '-');
    seq(|parts|, j requires 0 <= j < |parts| => ParseInt(parts[j]))
  }

  /** `parseProductIdList`: the input split on ',', each range split on '-' and parsed. */
  function ParseProductIdList(raw: string): (ranges: seq<seq<Option<nat>>>)
    ensures |ranges| == |Split(raw, ',')|
  {
    var parts := Split(raw, ',');
    seq(|parts|, i requires 0 <= i < |parts| => ParseRange(parts[i]))
  }

  /** The text of one range, as the input writes it. */
  function RangeText(start: nat, end: nat): string {
    DecimalString(start) + "-" + DecimalString(end)
  }

  /** The text of a list of ranges, as the input writes it. */
  function RangesText(ranges: seq<(nat, nat)>): string
    requires |ranges| >= 1
  {
    Join(seq(|ranges|, i requires 0 <= i < |ranges| => RangeText(ranges[i].0, ranges[i].1)), ',')
  }

  /** Parsing a range text gives back its two bounds. */
  lemma ParseRangeText(start: nat, end: nat)
    ensures ParseRange(RangeText(start, end)) == [Some(start), Some(end)]
  {
    var a, b := DecimalString(start), DecimalString(end);
    assert a + "-" + b == a + ['-'] + b;
    SplitAround(a, '-', b);
    SplitNoSeparator(b, '-');
    ParseIntOfDecimal(start, []);
    ParseIntOfDecimal(end, []);
    assert a + [] == a && b + [] == b;
  }

  /** The parsed form of a list of ranges: each range's two bounds. */
  function Bounds(ranges: seq<(nat, nat)>): (parsed: seq<seq<Option<nat>>>)
    ensures |parsed| == |ranges|
    ensures forall i :: 0 <= i < |ranges| ==> parsed[i] == [Some(ranges[i].0), Some(ranges[i].1)]
  {
    if |ranges| == 0 then []
    else Bounds(ranges[..|ranges| - 1]) + [[Some(ranges[|ranges| - 1].0), Some(ranges[|ranges| - 1].1)]]
  }

  /** A range text holds digits and '-' only, so no ','. */
  lemma RangeTextNoComma(start: nat, end: nat)
    ensures ',' !in RangeText(start, end)
  {
    var a, b := DecimalString(start), DecimalString(end);
    assert RangeText(start, end) == a + ['-'] + b;
    assert ',' !in a && ',' !in b;
  }

  /** Parsing the text of a list of ranges gives back every range's two bounds, in order. */
  lemma ParseRangesText(ranges: seq<(nat, nat)>)
    requires |ranges| >= 1
    ensures ParseProductIdList(RangesText(ranges)) == Bounds(ranges)
  {
    var texts := seq(|ranges|, i requires 0 <= i < |ranges| => RangeText(ranges[i].0, ranges[i].1));
    forall i | 0 <= i < |texts|
      ensures ',' !in texts[i]
    {
      RangeTextNoComma(ranges[i].0, ranges[i].1);
    }
    SplitJoin(texts, ',');
    var parsed := ParseProductIdList(RangesText(ranges));
    forall i | 0 <= i < |ranges|
      ensures parsed[i] == Bounds(ranges)[i]
    {
      ParseRangeText(ranges[i].0, ranges[i].1);
    }
  }

  /**
   * `createRangeTuple`: the two bounds of a range, or `None` (null) unless
   * the range has exactly two parts.
   */
  function CreateRangeTuple(range: seq<Option<nat>>): (r: Option<(Option<nat>, Option<nat>)>)
    ensures r.Some? <==> |range| == 2
    ensures r.Some? ==> r.value.0 == range[0] && r.value.1 == range[1]
  {
    if |range| != 2 then None else Some((range[0], range[1]))
  }

  /** The IDs from `start` to `end`, both included, in ascending order. */
  function IdRange(start: nat, end: nat): (ids: seq<nat>)
    ensures |ids| == if start <= end then end - start + 1 else 0
    ensures forall k :: 0 <= k < |ids| ==> ids[k] == start + k
    decreases end + 1 - start
  {
    if start > end then [] else [start] + IdRange(start + 1, end)
  }

  /** `createIdArrayByRange`: pushes `start`, `start + 1`, ... up to `end` included. */
  method CreateIdArrayByRange(start: nat, end: nat) returns (range: seq<nat>)
    ensures range == IdRange(start, end)
  {
    range := [];
    var i := start;
    while i <= end
      invariant start <= i && (i <= end + 1 || i == start)
      invariant |range| == i - start
      invariant forall k :: 0 <= k < |range| ==> range[k] == start + k
      decreases end + 1 - i
    {
      range := range + [i];
      i := i + 1;
    }
  }

  /**
   * The IDs one parsed range contributes: none for a malformed range (it is
   * filtered out as null), none when a bound is NaN (the loop condition is
   * false at once), and otherwise the IDs from start to end.
   */
  function RangeIds(range: seq<Option<nat>>): seq<nat> {
    match CreateRangeTuple(range)
    case None => []
    case Some((Some(start), Some(end))) => IdRange(start, end)
    case Some(_) => []
  }

  /** All the IDs of all the ranges, in order (the `.flat()`): each one comes from one of the ranges. */
  function AllIds(ranges: seq<seq<Option<nat>>>): (ids: seq<nat>)
    ensures forall i :: 0 <= i < |ids| ==> exists r :: 0 <= r < |ranges| && ids[i] in RangeIds(ranges[r])
  {
    if |ranges| == 0 then [] else AllIds(ranges[..|ranges| - 1]) + RangeIds(ranges[|ranges| - 1])
  }

  /** `isValidId`: an odd-length ID is valid; an even-length one is valid unless its two halves are equal. */
  predicate IsValidId(id: string)
    ensures |id| % 2 == 1 ==> IsValidId(id)
    ensures !IsValidId(id) ==> id == id[..|id| / 2] + id[..|id| / 2]
  {
    if |id| % 2 > 0 then true else id[..|id| / 2] != id[|id| / 2..]
  }

  /** An ID is invalid exactly when it is some text written twice, so an odd-length ID is always valid. */
  lemma InvalidIffDoubled(id: string)
    ensures |id| % 2 == 1 ==> IsValidId(id)
    ensures !IsValidId(id) <==> exists half :: id == half + half
  {
    if !IsValidId(id) {
      var half := id[..|id| / 2];
      assert id == half + half;
    }
    if exists half :: id == half + half {
      var half :| id == half + half;
      assert id[..|id| / 2] == half && id[|id| / 2..] == half;
    }
  }

  /** The IDs whose decimal rendering is invalid, in order (`filter((id) => !isValidId(id.toString()))`). */
  function InvalidIds(ids: seq<nat>): (invalid: seq<nat>)
    ensures |invalid| <= |ids|
    ensures forall i :: 0 <= i < |invalid| ==> !IsValidId(DecimalString(invalid[i]))
  {
    if |ids| == 0 then []
    else
      var id := ids[|ids| - 1];
      InvalidIds(ids[..|ids| - 1]) + (if IsValidId(DecimalString(id)) then [] else [id])
  }

  /** The filter keeps exactly the invalid IDs. */
  lemma {:induction false} InvalidIdsMembers(ids: seq<nat>)
    ensures forall id :: id in InvalidIds(ids) <==> id in ids && !IsValidId(DecimalString(id))
  {
    if |ids| > 0 {
      var front := ids[..|ids| - 1];
      InvalidIdsMembers(front);
      assert ids == front + [ids[|ids| - 1]];
    }
  }

  /** Filtering a concatenation concatenates the filtered parts. */
  lemma {:induction false} InvalidIdsAppend(a: seq<nat>, b: seq<nat>)
    ensures InvalidIds(a + b) == InvalidIds(a) + InvalidIds(b)
  {
    if |b| == 0 {
      assert a + b == a;
    } else {
      var front := b[..|b| - 1];
      assert (a + b)[..|a + b| - 1] == a + front;
      InvalidIdsAppend(a, front);
    }
  }

  /** The sum of a list of IDs (the `reduce` from 0): no ID exceeds it. */
  function Sum(ids: seq<nat>): (total: nat)
    ensures forall i :: 0 <= i < |ids| ==> ids[i] <= total
  {
    if |ids| == 0 then 0 else Sum(ids[..|ids| - 1]) + ids[|ids| - 1]
  }

  lemma {:induction false} SumAppend(a: seq<nat>, b: seq<nat>)
    ensures Sum(a + b) == Sum(a) + Sum(b)
  {
    if |b| == 0 {
      assert a + b == a;
    } else {
      var front := b[..|b| - 1];
      assert (a + b)[..|a + b| - 1] == a + front;
      SumAppend(a, front);
    }
  }

  /** The answer: the sum of the invalid IDs of every well-formed range in the input. */
  function InvalidIdsSum(raw: string): (total: nat)
    ensures total <= Sum(AllIds(ParseProductIdList(raw)))
  {
    InvalidIdsSumBelow(AllIds(ParseProductIdList(raw)));
    Sum(InvalidIds(AllIds(ParseProductIdList(raw))))
  }

  /** Leaving the valid IDs out can only lower the sum. */
  lemma {:induction false} InvalidIdsSumBelow(ids: seq<nat>)
    ensures Sum(InvalidIds(ids)) <= Sum(ids)
  {
    if |ids| > 0 {
      var init := ids[..|ids| - 1];
      InvalidIdsSumBelow(init);
      SumAppend(InvalidIds(init), if IsValidId(DecimalString(ids[|ids| - 1])) then [] else [ids[|ids| - 1]]);
    }
  }

  /** The sum of the invalid IDs of each range, range by range. */
  function RangesSum(ranges: seq<(nat, nat)>): nat {
    if |ranges| == 0 then 0
    else
      var (start, end) := ranges[|ranges| - 1];
      RangesSum(ranges[..|ranges| - 1]) + Sum(InvalidIds(IdRange(start, end)))
  }

  /** The answer for a list of ranges adds up what each range contributes on its own. */
  lemma {:induction false} AllIdsSum(ranges: seq<(nat, nat)>)
    ensures Sum(InvalidIds(AllIds(Bounds(ranges)))) == RangesSum(ranges)
  {
    if |ranges| > 0 {
      var n := |ranges| - 1;
      var parsed := Bounds(ranges);
      AllIdsSum(ranges[..n]);
      assert parsed[..n] == Bounds(ranges[..n]);
      var last := IdRange(ranges[n].0, ranges[n].1);
      assert RangeIds(parsed[n]) == last;
      InvalidIdsAppend(AllIds(parsed[..n]), last);
      SumAppend(InvalidIds(AllIds(parsed[..n])), InvalidIds(last));
    }
  }

  /** The answer for the text of a list of ranges is the sum, range by range, of their invalid IDs. */
  lemma InvalidIdsSumOfRanges(ranges: seq<(nat, nat)>)
    requires |ranges| >= 1
    ensures InvalidIdsSum(RangesText(ranges)) == RangesSum(ranges)
  {
    ParseRangesText(ranges);
    AllIdsSum(ranges);
  }

  /** A two-digit ID is invalid exactly when both its digits are the same. */
  lemma TwoDigitId(id: nat)
    requires 10 <= id < 100
    ensures IsValidId(DecimalString(id)) <==> id / 10 != id % 10
  {
    var text := DecimalString(id);
    assert DecimalString(id / 10) == [DigitChar(id / 10)];
    assert text == [DigitChar(id / 10), DigitChar(id % 10)];
    assert text[..1] == [text[0]] && text[1..] == [text[1]];
  }

  /** Extending a range by one ID extends its filtered IDs by that ID when it is invalid. */
  lemma InvalidIdsExtend(start: nat, end: nat)
    requires start <= end + 1
    ensures InvalidIds(IdRange(start, end + 1)) ==
      InvalidIds(IdRange(start, end)) + (if IsValidId(DecimalString(end + 1)) then [] else [end + 1])
  {
    var ids := IdRange(start, end + 1);
    assert ids[..|ids| - 1] == IdRange(start, end);
  }

  /** Between 11 and `end`, up to 22, the invalid IDs are 11 and, once reached, 22. */
  lemma {:induction false} InvalidUpTo(first: nat, last: nat, end: nat)
    requires first == 11 && last == 22 && first <= end <= last
    ensures InvalidIds(IdRange(first, end)) == if end == last then [first, last] else [first]
  {
    if end == first {
      TwoDigitId(first);
      var ids := IdRange(first, first);
      assert ids == [first] && ids[..0] == [];
    } else {
      InvalidUpTo(first, last, end - 1);
      InvalidStep(first, last, end);
    }
  }

  lemma InvalidStep(first: nat, last: nat, end: nat)
    requires first == 11 && last == 22 && first < end <= last
    requires InvalidIds(IdRange(first, end - 1)) == [first]
    ensures InvalidIds(IdRange(first, end)) == if end == last then [first, last] else [first]
  {
    InvalidIdsExtend(first, end - 1);
    TwoDigitId(end);
    assert IsValidId(DecimalString(end)) <==> end != last;
  }

  /** The range "11-22" has the invalid IDs 11 and 22, so the answer for it is 33. */
  lemma SampleSum(raw: string)
    requires raw == "11-22"
    ensures InvalidIdsSum(raw) == 33
  {
    var ranges := [(11, 22)];
    SampleText(ranges);
    InvalidIdsSumOfRanges(ranges);
    SampleRangesSum(ranges);
  }

  lemma {:induction false} SampleText(ranges: seq<(nat, nat)>)
    requires ranges == [(11, 22)]
    ensures RangesText(ranges) == "11-22"
  {
    assert DecimalString(11) == "11" && DecimalString(22) == "22";
  }

  lemma {:induction false} SampleRangesSum(ranges: seq<(nat, nat)>)
    requires ranges == [(11, 22)]
    ensures RangesSum(ranges) == 33
  {
    InvalidUpTo(11, 22, 22);
    assert [11, 22][..1][..0] == [];
    assert ranges[..0] == [];
  }
}
