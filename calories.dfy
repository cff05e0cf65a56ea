/**
 * Calorie counting (2022 day 1): the input lines list the calories of the
 * snacks each elf carries, one elf's snacks after another, separated by a
 * blank line. The elves are ranked by their total calories; the answers are
 * the top elf and the names and calorie sum of the top three.
 */
module Calories {
  import opened Wrappers
  import opened Text
  import opened JsNumbers

  /** An elf: its name and the calories of its snacks so far. */
  datatype Elf = Elf(name: string, calories: nat)

  /** Every non-blank line starts with a digit, so `parseInt` gives a number (NaN is not modelled). */
  predicate NumericLines(data: seq<string>) {
    forall i :: 0 <= i < |data| && data[i] != "" ==> ParseInt(data[i]).Some?
  }

  /** The name of the `n`-th elf created, counting from 1 (`Elf ${n}`): `parseInt` reads `n` back after "Elf ". */
  function ElfName(n: nat): (name: string)
    ensures |name| > 4 && name[..4] == "Elf "
    ensures ParseInt(name[4..]) == Some(n)
  {
    var digits := DecimalString(n);
    ParseIntOfDecimal(n, "");
    assert digits + "" == digits;
    "Elf " + digits
  }

  /**
   * The grouping `reduce`: a new elf with no calories for the first line
   * and for each blank line, and each non-blank line's number added to the
   * most recently created elf.
   */
  function GroupElves(data: seq<string>): (elves: seq<Elf>)
    requires NumericLines(data)
    ensures |data| > 0 ==> |elves| > 0
  {
    if |data| == 0 then []
    else
      var line := data[|data| - 1];
      var before := GroupElves(data[..|data| - 1]);
      var grouped := if |before| == 0 || line == "" then before + [Elf(ElfName(|before| + 1), 0)] else before;
      if line == "" then grouped
      else
        var last := grouped[|grouped| - 1];
        grouped[|grouped| - 1 := last.(calories := last.calories + ParseInt(line).value)]
  }

  /** The number of blank lines. */
  function Blanks(data: seq<string>): nat {
    if |data| == 0 then 0 else Blanks(data[..|data| - 1]) + (if data[|data| - 1] == "" then 1 else 0)
  }

  /** The sum of the numbers on the non-blank lines. */
  function LinesTotal(data: seq<string>): nat
    requires NumericLines(data)
  {
    if |data| == 0 then 0
    else LinesTotal(data[..|data| - 1]) + (if data[|data| - 1] == "" then 0 else ParseInt(data[|data| - 1]).value)
  }

  /** The sum of the elves' calories (the `reduce` from 0). */
  function CaloriesSum(elves: seq<Elf>): (total: nat)
    ensures forall i :: 0 <= i < |elves| ==> elves[i].calories <= total
  {
    if |elves| == 0 then 0 else CaloriesSum(elves[..|elves| - 1]) + elves[|elves| - 1].calories
  }

  /** There is one elf for the first line and one for each later blank line. */
  lemma {:induction false} GroupElvesCount(data: seq<string>)
    requires NumericLines(data) && |data| > 0
    ensures |GroupElves(data)| == Blanks(data) + (if data[0] == "" then 0 else 1)
  {
    var front := data[..|data| - 1];
    if |front| > 0 {
      GroupElvesCount(front);
      assert front[0] == data[0];
    }
  }

  /** The `k`-th elf, counting from 0, is named "Elf k+1": the names follow the order of creation. */
  lemma {:induction false} GroupElvesNames(data: seq<string>)
    requires NumericLines(data)
    ensures forall k :: 0 <= k < |GroupElves(data)| ==> GroupElves(data)[k].name == ElfName(k + 1)
  {
    if |data| > 0 {
      GroupElvesNames(data[..|data| - 1]);
    }
  }

  /** No calorie is lost or counted twice: the elves together carry the sum of all non-blank lines. */
  lemma {:induction false} GroupElvesTotal(data: seq<string>)
    requires NumericLines(data)
    ensures CaloriesSum(GroupElves(data)) == LinesTotal(data)
  {
    if |data| > 0 {
      var front := data[..|data| - 1];
      GroupElvesTotal(front);
      var line := data[|data| - 1];
      var before := GroupElves(front);
      var grouped := if |before| == 0 || line == "" then before + [Elf(ElfName(|before| + 1), 0)] else before;
      if |before| == 0 || line == "" {
        CaloriesSumAppend(before, Elf(ElfName(|before| + 1), 0));
      }
      if line != "" {
        CaloriesSumRaiseLast(grouped, ParseInt(line).value);
      }
    }
  }

  /** One more elf adds its calories to the sum. */
  lemma CaloriesSumAppend(elves: seq<Elf>, e: Elf)
    ensures CaloriesSum(elves + [e]) == CaloriesSum(elves) + e.calories
  {
    assert (elves + [e])[..|elves|] == elves;
  }

  /** Raising the last elf's calories raises the sum by as much. */
  lemma CaloriesSumRaiseLast(elves: seq<Elf>, k: nat)
    requires |elves| > 0
    ensures var n := |elves| - 1;
      CaloriesSum(elves[n := elves[n].(calories := elves[n].calories + k)]) == CaloriesSum(elves) + k
  {
    var n := |elves| - 1;
    var after := elves[n := elves[n].(calories := elves[n].calories + k)];
    assert after[..n] == elves[..n];
  }

  /** Elves ordered from the most calories to the fewest. */
  predicate Descending(elves: seq<Elf>) {
    forall p, q :: 0 <= p < q < |elves| ==> elves[p].calories >= elves[q].calories
  }

  /** The elves at positions `lo` up to `hi` (excluded) are ordered from the most calories to the fewest. */
  predicate Ranked(elves: seq<Elf>, lo: nat, hi: nat)
    requires lo <= hi <= |elves|
  {
    forall p, q :: lo <= p < q < hi ==> elves[p].calories >= elves[q].calories
  }

  /** Pieces that fit together into a descending order of the first `i + 1` elves. */
  lemma SinkDone(s: seq<Elf>, j: nat, i: nat)
    requires j <= i < |s|
    requires Ranked(s, 0, j) && Ranked(s, j + 1, i + 1)
    requires forall q :: j < q <= i ==> s[j].calories > s[q].calories
    requires 0 < j < i ==> s[j - 1].calories >= s[j + 1].calories
    requires j == 0 || s[j - 1].calories >= s[j].calories
    ensures Ranked(s, 0, i + 1)
  {
    forall p, q | 0 <= p < q <= i
      ensures s[p].calories >= s[q].calories
    {
      if p < j && j < q {
        assert s[p].calories >= s[j - 1].calories;
        if j < i {
          assert s[j + 1].calories >= s[q].calories;
        }
      }
    }
  }

  /** One swap of the elf being sunk with the one in front of it keeps the pieces fitting. */
  lemma SinkSwap(s: seq<Elf>, t: seq<Elf>, j: nat, i: nat)
    requires 0 < j <= i < |s| && t == s[j - 1 := s[j]][j := s[j - 1]]
    requires Ranked(s, 0, j) && Ranked(s, j + 1, i + 1)
    requires forall q :: j < q <= i ==> s[j].calories > s[q].calories
    requires 0 < j < i ==> s[j - 1].calories >= s[j + 1].calories
    requires s[j - 1].calories < s[j].calories
    ensures Ranked(t, 0, j - 1) && Ranked(t, j, i + 1)
    ensures forall q :: j - 1 < q <= i ==> t[j - 1].calories > t[q].calories
    ensures 0 < j - 1 < i ==> t[j - 2].calories >= t[j].calories
  {
    forall p, q | j <= p < q <= i
      ensures t[p].calories >= t[q].calories
    {
      if p == j {
        assert s[j - 1].calories >= s[j + 1].calories;
      }
    }
  }

  /** Swapping two neighbours keeps the elves. */
  lemma SwapKeeps(s: seq<Elf>, t: seq<Elf>, j: nat)
    requires 0 < j < |s| && t == s[j - 1 := s[j]][j := s[j - 1]]
    ensures multiset(t) == multiset(s)
  {
    assert s == s[..j - 1] + [s[j - 1], s[j]] + s[j + 1..];
    assert t == s[..j - 1] + [s[j], s[j - 1]] + s[j + 1..];
  }

  /**
   * Moves the elf at `i` down in front of every elf with fewer calories, so
   * that the first `i + 1` elves are in descending order.
   */
  method Sink(elves: array<Elf>, i: nat)
    requires i < elves.Length && Ranked(elves[..], 0, i)
    modifies elves
    ensures Ranked(elves[..], 0, i + 1)
    ensures multiset(elves[..]) == multiset(old(elves[..]))
  {
    var j := i;
    while j > 0 && elves[j - 1].calories < elves[j].calories
      invariant 0 <= j <= i
      invariant multiset(elves[..]) == multiset(old(elves[..]))
      invariant Ranked(elves[..], 0, j) && Ranked(elves[..], j + 1, i + 1)
      invariant forall q :: j < q <= i ==> elves[j].calories > elves[q].calories
      invariant 0 < j < i ==> elves[j - 1].calories >= elves[j + 1].calories
    {
      ghost var s := elves[..];
      elves[j - 1], elves[j] := elves[j], elves[j - 1];
      SwapKeeps(s, elves[..], j);
      SinkSwap(s, elves[..], j, i);
      j := j - 1;
    }
    SinkDone(elves[..], j, i);
  }

  /**
   * The in-place `sort` with the comparator that puts the elf with more
   * calories first: the elves end in descending order of calories, and
   * none is lost or added.
   */
  method SortByCalories(elves: array<Elf>)
    modifies elves
    ensures Descending(elves[..])
    ensures multiset(elves[..]) == multiset(old(elves[..]))
  {
    for i := 0 to elves.Length
      invariant Ranked(elves[..], 0, i)
      invariant multiset(elves[..]) == multiset(old(elves[..]))
    {
      Sink(elves, i);
    }
  }

  /** The top elf of a descending order carries at least as many calories as any elf. */
  lemma TopElfIsMax(elves: seq<Elf>, e: Elf)
    requires Descending(elves) && e in elves
    ensures elves[0].calories >= e.calories
  {
    var k :| 0 <= k < |elves| && elves[k] == e;
    if k > 0 {
      assert elves[0].calories >= elves[k].calories;
    }
  }

  /** The calories of the elves, in order. */
  function CaloriesOf(elves: seq<Elf>): seq<nat> {
    seq(|elves|, k requires 0 <= k < |elves| => elves[k].calories)
  }

  predicate NonIncreasing(c: seq<nat>) {
    forall p, q :: 0 <= p < q < |c| ==> c[p] >= c[q]
  }

  lemma CaloriesOfAppend(a: seq<Elf>, b: seq<Elf>)
    ensures CaloriesOf(a + b) == CaloriesOf(a) + CaloriesOf(b)
  {
  }

  /** Taking out the element at `k` takes one occurrence of it out of the multiset. */
  lemma RemoveAt<T>(t: seq<T>, k: nat)
    requires k < |t|
    ensures multiset(t) == multiset(t[..k] + t[k + 1..]) + multiset{t[k]}
  {
    assert t == t[..k] + [t[k]] + t[k + 1..];
  }

  /** One occurrence added to two multisets keeps them equal only if they were. */
  lemma MultisetCancel<T>(x: multiset<T>, y: multiset<T>, e: T)
    requires x + multiset{e} == y + multiset{e}
    ensures x == y
  {
    forall v
      ensures x[v] == y[v]
    {
      assert (x + multiset{e})[v] == x[v] + multiset{e}[v];
      assert (y + multiset{e})[v] == y[v] + multiset{e}[v];
    }
  }

  /** An element of `t` that matches the last of `s`; the rests have the same elements. */
  lemma PickMatch(s: seq<Elf>, t: seq<Elf>) returns (k: nat)
    requires |s| > 0 && multiset(s) == multiset(t)
    ensures k < |t| && t[k] == s[|s| - 1]
    ensures multiset(s[..|s| - 1]) == multiset(t[..k] + t[k + 1..])
  {
    var n := |s| - 1;
    RemoveAt(s, n);
    assert s[..n] + s[n + 1..] == s[..n];
    assert s[n] in multiset(t);
    k :| 0 <= k < |t| && t[k] == s[n];
    RemoveAt(t, k);
    MultisetCancel(multiset(s[..n]), multiset(t[..k] + t[k + 1..]), s[n]);
  }

  /** Taking out the elf at `k` takes its calories out of the multiset of calories. */
  lemma CaloriesOfRemove(t: seq<Elf>, k: nat)
    requires k < |t|
    ensures multiset(CaloriesOf(t)) == multiset(CaloriesOf(t[..k] + t[k + 1..])) + multiset{t[k].calories}
  {
    var before, after := t[..k], t[k + 1..];
    assert t == before + [t[k]] + after;
    CaloriesOfAppend(before + [t[k]], after);
    CaloriesOfAppend(before, [t[k]]);
    CaloriesOfAppend(before, after);
    assert CaloriesOf([t[k]]) == [t[k].calories];
  }

  /** The same elves, however ordered, carry the same multiset of calories. */
  lemma {:induction false} CaloriesOfPermutation(s: seq<Elf>, t: seq<Elf>)
    requires multiset(s) == multiset(t)
    ensures multiset(CaloriesOf(s)) == multiset(CaloriesOf(t))
    decreases |s|
  {
    if |s| > 0 {
      var n := |s| - 1;
      var k := PickMatch(s, t);
      CaloriesOfPermutation(s[..n], t[..k] + t[k + 1..]);
      CaloriesOfRemove(s, n);
      assert s[..n] + s[n + 1..] == s[..n];
      CaloriesOfRemove(t, k);
    } else {
      assert |t| == |multiset(t)| == 0;
    }
  }

  /** The rest of a non-increasing sequence is non-increasing. */
  lemma NonIncreasingTail(a: seq<nat>)
    requires |a| > 0 && NonIncreasing(a)
    ensures NonIncreasing(a[1..])
  {
    forall p, q | 0 <= p < q < |a[1..]|
      ensures a[1..][p] >= a[1..][q]
    {
      assert a[1..][p] == a[p + 1] && a[1..][q] == a[q + 1];
    }
  }

  /** Two non-increasing sequences with the same elements start with the same, largest, element. */
  lemma NonIncreasingHeads(a: seq<nat>, b: seq<nat>)
    requires |a| > 0 && NonIncreasing(a) && NonIncreasing(b) && multiset(a) == multiset(b)
    ensures |b| == |a| && a[0] == b[0]
  {
    assert |b| == |multiset(b)| == |multiset(a)| == |a|;
    assert a[0] in multiset(b) && b[0] in multiset(a);
    var i :| 0 <= i < |b| && b[i] == a[0];
    var j :| 0 <= j < |a| && a[j] == b[0];
    assert b[0] >= b[i] && a[0] >= a[j];
  }

  /** Equal first elements and one occurrence of each taken out leave equal multisets of the rest. */
  lemma TailsSameElements(a: seq<nat>, b: seq<nat>)
    requires |a| > 0 && |b| > 0 && a[0] == b[0] && multiset(a) == multiset(b)
    ensures multiset(a[1..]) == multiset(b[1..])
  {
    assert a == [a[0]] + a[1..] && b == [b[0]] + b[1..];
    assert multiset(a) == multiset(a[1..]) + multiset{a[0]};
    assert multiset(b) == multiset(b[1..]) + multiset{a[0]};
    MultisetCancel(multiset(a[1..]), multiset(b[1..]), a[0]);
  }

  lemma SameHeadAndTail(a: seq<nat>, b: seq<nat>)
    requires |a| > 0 && |b| > 0 && a[0] == b[0] && a[1..] == b[1..]
    ensures a == b
  {
    assert a == [a[0]] + a[1..] && b == [b[0]] + b[1..];
  }

  /** Two non-increasing sequences with the same elements are equal. */
  lemma {:induction false} NonIncreasingUnique(a: seq<nat>, b: seq<nat>)
    requires NonIncreasing(a) && NonIncreasing(b) && multiset(a) == multiset(b)
    ensures a == b
    decreases |a|
  {
    if |a| > 0 {
      NonIncreasingHeads(a, b);
      TailsSameElements(a, b);
      NonIncreasingTail(a);
      NonIncreasingTail(b);
      NonIncreasingUnique(a[1..], b[1..]);
      SameHeadAndTail(a, b);
    } else {
      assert |b| == |multiset(b)| == 0;
    }
  }

  /** The calories of the elves, position by position. */
  lemma CaloriesOfAt(elves: seq<Elf>)
    ensures |CaloriesOf(elves)| == |elves|
    ensures forall k :: 0 <= k < |elves| ==> CaloriesOf(elves)[k] == elves[k].calories
  {
  }

  /** Elves with the same calories, position by position, have the same sum. */
  lemma {:induction false} CaloriesSumOf(s: seq<Elf>, t: seq<Elf>)
    requires CaloriesOf(s) == CaloriesOf(t)
    ensures CaloriesSum(s) == CaloriesSum(t)
  {
    CaloriesOfAt(s);
    CaloriesOfAt(t);
    if |s| > 0 {
      var n := |s| - 1;
      assert CaloriesOf(s[..n]) == CaloriesOf(s)[..n];
      assert CaloriesOf(t[..n]) == CaloriesOf(t)[..n];
      assert s[n].calories == CaloriesOf(s)[n] == CaloriesOf(t)[n] == t[n].calories;
      CaloriesSumOf(s[..n], t[..n]);
    }
  }

  /**
   * The comparator never answers "equal", so elves with the same calories
   * may end in either order; the calories in ranked order do not depend on
   * that, and so neither do the top elf's calories and the top-three sum.
   */
  lemma RankedCaloriesDetermined(s: seq<Elf>, t: seq<Elf>)
    requires Descending(s) && Descending(t) && multiset(s) == multiset(t)
    ensures CaloriesOf(s) == CaloriesOf(t)
    ensures |s| > 0 ==> s[0].calories == t[0].calories
    ensures CaloriesSum(s[..Min(3, |s|)]) == CaloriesSum(t[..Min(3, |t|)])
  {
    CaloriesOfPermutation(s, t);
    CaloriesOfAt(s);
    CaloriesOfAt(t);
    NonIncreasingUnique(CaloriesOf(s), CaloriesOf(t));
    if |s| > 0 {
      assert s[0].calories == CaloriesOf(s)[0];
    }
    var k := Min(3, |s|);
    assert CaloriesOf(s[..k]) == CaloriesOf(s)[..k] && CaloriesOf(t[..k]) == CaloriesOf(t)[..k];
    CaloriesSumOf(s[..k], t[..k]);
  }

  function Min(a: nat, b: nat): nat {
    if a < b then a else b
  }

  /**
   * The `reduce` that keeps the first elves while fewer than three are
   * kept: the first three elves, or all of them when there are fewer.
   */
  function TopThree(elves: seq<Elf>): (top: seq<Elf>)
    ensures |top| == Min(3, |elves|)
    ensures forall i :: 0 <= i < |top| ==> top[i] == elves[i]
  {
    if |elves| == 0 then []
    else
      var kept := TopThree(elves[..|elves| - 1]);
      if |kept| < 3 then kept + [elves[|elves| - 1]] else kept
  }

  /** `t` is the end of `s`. */
  predicate EndsWith(s: string, t: string) {
    |t| <= |s| && s[|s| - |t|..] == t
  }

  lemma TopThreeIsPrefix(elves: seq<Elf>)
    ensures TopThree(elves) == elves[..Min(3, |elves|)]
  {
  }

  /** The names `reduce`: each name appended, after ", " unless nothing has been written yet. */
  function JoinNames(elves: seq<Elf>): (names: string)
    ensures names == "" <==> forall i :: 0 <= i < |elves| ==> elves[i].name == ""
    ensures |elves| > 0 ==> EndsWith(names, elves[|elves| - 1].name)
  {
    if |elves| == 0 then ""
    else
      var front := elves[..|elves| - 1];
      var acc := JoinNames(front);
      var last := elves[|elves| - 1].name;
      var names := acc + (if |acc| > 0 then ", " else "") + last;
      assert EndsWith(names, last) by {
        assert names[|names| - |last|..] == last;
      }
      assert forall i :: 0 <= i < |front| ==> front[i] == elves[i];
      names
  }

  /** The names as a list: the first, then ", " before each further one. */
  function ListNames(elves: seq<Elf>): string {
    if |elves| == 0 then "" else elves[0].name + ListTail(elves[1..])
  }

  function ListTail(elves: seq<Elf>): string {
    if |elves| == 0 then "" else ", " + elves[0].name + ListTail(elves[1..])
  }

  lemma {:induction false} ListTailAppend(elves: seq<Elf>, e: Elf)
    ensures ListTail(elves + [e]) == ListTail(elves) + ", " + e.name
  {
    if |elves| > 0 {
      assert (elves + [e])[1..] == elves[1..] + [e];
      ListTailAppend(elves[1..], e);
    } else {
      assert [e][1..] == [];
    }
  }

  /** With non-empty names, as every "Elf n" is, the names come out separated by ", ". */
  lemma {:induction false} JoinNamesListed(elves: seq<Elf>)
    requires forall k :: 0 <= k < |elves| ==> elves[k].name != ""
    ensures JoinNames(elves) == ListNames(elves)
  {
    if |elves| > 0 {
      var front := elves[..|elves| - 1];
      var e := elves[|elves| - 1];
      JoinNamesListed(front);
      if |front| > 0 {
        var first, tail := front[0].name, ListTail(front[1..]);
        assert elves[1..] == front[1..] + [e];
        ListTailAppend(front[1..], e);
        Regroup(first, tail + ", ", e.name);
        Regroup(first, tail, ", ");
        assert JoinNames(elves) == first + tail + ", " + e.name;
      } else {
        assert elves[1..] == [];
      }
    }
  }

  /** The answers: the elves in ranked order, the top elf, and the names and calorie sum of the top three. */
  method Rank(raw: string) returns (elves: array<Elf>, topElf: Elf, names: string, total: nat)
    requires NumericLines(Split(raw, '\n'))
    ensures Descending(elves[..]) && multiset(elves[..]) == multiset(GroupElves(Split(raw, '\n')))
    ensures elves.Length > 0 && topElf == elves[0]
    ensures names == JoinNames(elves[..Min(3, elves.Length)])
    ensures total == CaloriesSum(elves[..Min(3, elves.Length)])
  {
    var data := Split(raw, '\n');
    var grouped := GroupElves(data);
    elves := new Elf[|grouped|](k requires 0 <= k < |grouped| => grouped[k]);
    assert elves[..] == grouped;
    SortByCalories(elves);
    var top := TopThree(elves[..]);
    TopThreeIsPrefix(elves[..]);
    topElf := top[0];
    names := JoinNames(top);
    total := CaloriesSum(top);
  }
}
