/**
 * Naughty or nice strings (2015 day 5): a string is nice when it has at
 * least three vowels, at least one letter that appears twice in a row,
 * and none of "ab", "cd", "pq" or "xy".
 *
 * The vowel and doublet counters are `u8` in the source; the model counts
 * in `nat` and requires that the counts and their sums fit, where the
 * source's debug build would panic on overflow.
 */
module NiceStrings {
  import opened Ints
  import opened Text

  datatype StringType = Nice | Naughty

  // ---------------------------------------------------------------------
  // Sums of map values (`.values().sum()`)
  // ---------------------------------------------------------------------

  /** The sum of a map's values, taken key by key in some order. */
  ghost function MapSum<K>(m: map<K, nat>): nat
    decreases |m|
  {
    if m == map[] then 0
    else
      var k :| k in m;
      m[k] + MapSum(m - {k})
  }

  /** The sum does not depend on the order: any key can be taken first. */
  lemma {:induction false} MapSumRemove<K>(m: map<K, nat>, k: K)
    requires k in m
    ensures MapSum(m) == m[k] + MapSum(m - {k})
    decreases |m|
  {
    var j :| j in m && MapSum(m) == m[j] + MapSum(m - {j});
    if j != k {
      MapSumRemove(m - {j}, k);
      MapSumRemove(m - {k}, j);
      assert m - {j} - {k} == m - {k} - {j};
    }
  }

  /** Setting one key's value changes the sum by the difference. */
  lemma MapSumUpdate<K>(m: map<K, nat>, k: K, v: nat)
    ensures MapSum(m[k := v]) == MapSum(m) + v - (if k in m then m[k] else 0)
  {
    MapSumRemove(m[k := v], k);
    assert m[k := v] - {k} == m - {k};
    if k in m {
      MapSumRemove(m, k);
    } else {
      assert m - {k} == m;
    }
  }

  /** The sum of the values, added up key by key as the source's iterator does. */
  method SumValues<K>(m: map<K, nat>) returns (total: nat)
    requires MapSum(m) <= U8Max
    ensures total == MapSum(m)
  {
    total := 0;
    var rest := m;
    while rest != map[]
      invariant total + MapSum(rest) == MapSum(m)
      decreases |rest|
    {
      var k :| k in rest;
      MapSumRemove(rest, k);
      total := total + rest[k];
      rest := rest - {k};
    }
  }

  // ---------------------------------------------------------------------
  // Vowels
  // ---------------------------------------------------------------------

  predicate IsVowel(c: char) {
    c == 'a' || c == 'e' || c == 'i' || c == 'o' || c == 'u'
  }

  /** The number of vowels in `s`, repeats included. */
  function VowelCount(s: string): nat {
    if |s| == 0 then 0 else VowelCount(s[..|s| - 1]) + (if IsVowel(s[|s| - 1]) then 1 else 0)
  }

  /** A vowel occurs no more often than the vowels altogether, which are no more than the characters. */
  lemma {:induction false} VowelCountBounds(s: string, c: char)
    ensures IsVowel(c) ==> Count(s, c) <= VowelCount(s)
    ensures VowelCount(s) <= |s|
  {
    if |s| > 0 {
      VowelCountBounds(s[..|s| - 1], c);
    }
  }

  /** A map from each vowel of `s` to the number of its occurrences, and nothing else. */
  ghost predicate VowelTally(s: string, vowels: map<char, nat>) {
    && (forall c :: c in vowels <==> IsVowel(c) && Count(s, c) > 0)
    && (forall c :: c in vowels ==> vowels[c] == Count(s, c))
    && MapSum(vowels) == VowelCount(s)
  }

  /**
   * `get_vowels`: one counter per vowel, created at its first occurrence
   * and incremented at each one.
   */
  method GetVowels(s: string) returns (vowels: map<char, nat>)
    requires forall c :: IsVowel(c) ==> Count(s, c) <= U8Max
    ensures VowelTally(s, vowels)
  {
    vowels := map[];
    for i := 0 to |s|
      invariant VowelTally(s[..i], vowels)
    {
      var c := s[i];
      assert s[..i + 1][..i] == s[..i];
      if IsVowel(c) {
        var v := if c in vowels then vowels[c] else 0;
        MapSumUpdate(vowels, c, v + 1);
        vowels := vowels[c := v + 1];
      }
    }
    assert s[..|s|] == s;
  }

  /** `is_contains_at_least_three_vowels`: the counters' total is at least 3. */
  method AtLeastThreeVowels(s: string) returns (b: bool)
    requires VowelCount(s) <= U8Max
    ensures b <==> VowelCount(s) >= 3
  {
    forall c | IsVowel(c)
      ensures Count(s, c) <= U8Max
    {
      VowelCountBounds(s, c);
    }
    var vowels := GetVowels(s);
    var total := SumValues(vowels);
    b := total >= 3;
  }

  /** A character occurs in `s` exactly when its count is positive. */
  lemma {:induction false} CountPositive(s: string, c: char)
    ensures Count(s, c) > 0 <==> c in s
  {
    if |s| > 0 {
      CountPositive(s[..|s| - 1], c);
      assert s == s[..|s| - 1] + [s[|s| - 1]];
    }
  }

  /** In a string of vowels only, every character counts. */
  lemma {:induction false} VowelCountOfVowels(s: string)
    requires forall i :: 0 <= i < |s| ==> IsVowel(s[i])
    ensures VowelCount(s) == |s|
  {
    if |s| > 0 {
      VowelCountOfVowels(s[..|s| - 1]);
    }
  }

  /** The counters of the source's first test: "aei" has three of them. */
  method VowelKeys() returns (keys: nat)
    ensures keys == 3
  {
    forall c | IsVowel(c)
      ensures Count("aei", c) <= U8Max
    {
      VowelCountBounds("aei", c);
    }
    var vowels := GetVowels("aei");
    forall c
      ensures c in vowels <==> c in {'a', 'e', 'i'}
    {
      CountPositive("aei", c);
    }
    assert vowels.Keys == {'a', 'e', 'i'};
    keys := |vowels|;
  }

  /** The totals of the source's tests: "aaa" gives 3 and "aaaa" 4, repeats counted. */
  method VowelTotals() returns (three: nat, four: nat)
    ensures three == 3 && four == 4
  {
    VowelCountOfVowels("aaa");
    VowelCountOfVowels("aaaa");
    forall c | IsVowel(c)
      ensures Count("aaa", c) <= U8Max && Count("aaaa", c) <= U8Max
    {
      VowelCountBounds("aaa", c);
      VowelCountBounds("aaaa", c);
    }
    var aaa := GetVowels("aaa");
    three := SumValues(aaa);
    var aaaa := GetVowels("aaaa");
    four := SumValues(aaaa);
  }

  // ---------------------------------------------------------------------
  // Doublets
  // ---------------------------------------------------------------------

  /**
   * The letters of the doubled pairs found from position `j` on, scanning
   * left to right and never reusing a letter of a pair already found.
   */
  function Pairs(s: string, j: nat): seq<char>
    decreases |s| - j
  {
    if j + 1 >= |s| then []
    else if s[j] == s[j + 1] then [s[j]] + Pairs(s, j + 2)
    else Pairs(s, j + 1)
  }

  /** The doubled letter `c` as the source's key: `c` twice. */
  function Doubled(c: char): string {
    [c, c]
  }

  /** A map from the key of each doubled letter found to the number of its pairs, and nothing else. */
  ghost predicate DoubletTally(found: seq<char>, doublets: map<string, nat>) {
    && (forall key :: key in doublets ==> |key| == 2 && key[0] == key[1])
    && (forall c :: Doubled(c) in doublets <==> Count(found, c) > 0)
    && (forall c :: Doubled(c) in doublets ==> doublets[Doubled(c)] == Count(found, c))
    && MapSum(doublets) == |found|
  }

  /** Adding a letter to what was found moves the tally by one pair. */
  lemma DoubletStep(found: seq<char>, doublets: map<string, nat>, c: char)
    requires DoubletTally(found, doublets)
    ensures var d := if Doubled(c) in doublets then doublets[Doubled(c)] else 0;
      DoubletTally(found + [c], doublets[Doubled(c) := d + 1])
  {
    var d := if Doubled(c) in doublets then doublets[Doubled(c)] else 0;
    MapSumUpdate(doublets, Doubled(c), d + 1);
    assert (found + [c])[..|found|] == found;
    forall c' | c' != c
      ensures Doubled(c') != Doubled(c)
    {
      assert Doubled(c')[0] != Doubled(c)[0];
    }
  }

  /** A pair found at `i - 1`, `i`: the tally and what is left to find both move past it. */
  lemma PairFound(s: string, i: nat, found: seq<char>, doublets: map<string, nat>)
    requires 1 <= i < |s| && s[i] == s[i - 1]
    requires found + Pairs(s, i - 1) == Pairs(s, 0) && DoubletTally(found, doublets)
    ensures (found + [s[i - 1]]) + Pairs(s, i + 1) == Pairs(s, 0)
    ensures var key := Doubled(s[i - 1]);
      var d := if key in doublets then doublets[key] else 0;
      DoubletTally(found + [s[i - 1]], doublets[key := d + 1])
  {
    DoubletStep(found, doublets, s[i - 1]);
    assert Pairs(s, i - 1) == [s[i - 1]] + Pairs(s, i + 1);
    Regroup(found, [s[i - 1]], Pairs(s, i + 1));
  }

  /**
   * `get_doublets`: scanning pairs of neighbours, each doubled letter
   * found counts one pair under its key and the scan resumes after it, so
   * pairs never overlap.
   */
  method GetDoublets(s: string) returns (doublets: map<string, nat>)
    requires |s| > 0
    requires forall c :: Count(Pairs(s, 0), c) <= U8Max
    ensures DoubletTally(Pairs(s, 0), doublets)
  {
    doublets := map[];
    var i := 1;
    var prev := s[0];
    ghost var found: seq<char> := [];
    while i < |s|
      invariant 1 <= i <= |s| && prev == s[i - 1]
      invariant found + Pairs(s, i - 1) == Pairs(s, 0)
      invariant DoubletTally(found, doublets)
      decreases |s| - i
    {
      if s[i] == prev {
        var key := Doubled(prev);
        PairFound(s, i, found, doublets);
        var d := if key in doublets then doublets[key] else 0;
        doublets := doublets[key := d + 1];
        found := found + [prev];
        i := i + 1;
      }
      if i < |s| {
        prev := s[i];
      } else {
        assert found + [] == found;
        break;
      }
      i := i + 1;
    }
    assert found + [] == found;
  }

  /** Some letter appears twice in a row. */
  ghost predicate HasDoublet(s: string) {
    exists i :: 0 <= i && i + 1 < |s| && s[i] == s[i + 1]
  }

  /** The scan from `j` finds a pair exactly when some letter from `j` on is followed by itself. */
  lemma {:induction false} PairsFindDoublet(s: string, j: nat)
    ensures |Pairs(s, j)| > 0 <==> exists i :: j <= i && i + 1 < |s| && s[i] == s[i + 1]
    decreases |s| - j
  {
    if j + 1 < |s| && s[j] != s[j + 1] {
      PairsFindDoublet(s, j + 1);
    }
  }

  /** `is_contains_at_least_one_doublet`: the counters' total is at least 1. */
  method AtLeastOneDoublet(s: string) returns (b: bool)
    requires |s| > 0 && |Pairs(s, 0)| <= U8Max
    ensures b <==> HasDoublet(s)
  {
    forall c
      ensures Count(Pairs(s, 0), c) <= U8Max
    {
      CountBelowLength(Pairs(s, 0), c);
    }
    var doublets := GetDoublets(s);
    var total := SumValues(doublets);
    PairsFindDoublet(s, 0);
    b := total >= 1;
  }

  lemma {:induction false} CountBelowLength(s: seq<char>, c: char)
    ensures Count(s, c) <= |s|
  {
    if |s| > 0 {
      CountBelowLength(s[..|s| - 1], c);
    }
  }

  /** The doublets of the source's test: "aaeecc" has three keys; "aaa" has one, its third letter left over. */
  lemma DoubletExamples()
    ensures Pairs("aaeecc", 0) == "aec"
    ensures Pairs("aaa", 0) == "a"
  {
  }

  /** Three doubled letters give three keys. */
  method DoubletKeys() returns (keys: nat)
    ensures keys == 3
  {
    DoubletExamples();
    forall c
      ensures Count("aec", c) <= U8Max
    {
      CountBelowLength("aec", c);
    }
    var doublets := GetDoublets("aaeecc");
    forall key
      ensures key in doublets <==> key in {"aa", "ee", "cc"}
    {
      if key in doublets {
        assert Doubled(key[0]) == key;
        CountPositive("aec", key[0]);
      }
      CountPositive("aec", 'a');
      CountPositive("aec", 'e');
      CountPositive("aec", 'c');
      assert Doubled('a') == "aa" && Doubled('e') == "ee" && Doubled('c') == "cc";
    }
    assert doublets.Keys == {"aa", "ee", "cc"};
    keys := |doublets|;
  }

  // ---------------------------------------------------------------------
  // Forbidden pairs
  // ---------------------------------------------------------------------

  /** The pairs a nice string must not contain, in the order they are tried. */
  const Forbidden: seq<string> := ["ab", "cd", "pq", "xy"]

  /** `s.contains(f)`: `f` occurs somewhere in `s`. */
  function Contains(s: string, f: string): bool
  {
    if |s| < |f| then false else s[..|f|] == f || Contains(s[1..], f)
  }

  /** `f` occurs at position `i` of `s`. */
  ghost predicate OccursAt(s: string, f: string, i: nat) {
    i + |f| <= |s| && s[i..i + |f|] == f
  }

  /** `Contains` finds exactly the strings that occur at some position. */
  lemma {:induction false} ContainsOccurs(s: string, f: string)
    ensures Contains(s, f) <==> exists i: nat :: OccursAt(s, f, i)
  {
    if |s| < |f| {
      forall i: nat | OccursAt(s, f, i)
        ensures false
      {
      }
    } else if s[..|f|] == f {
      assert OccursAt(s, f, 0);
    } else {
      ContainsOccurs(s[1..], f);
      if Contains(s[1..], f) {
        var i: nat :| OccursAt(s[1..], f, i);
        assert s[1..][i..i + |f|] == s[i + 1..i + 1 + |f|];
        assert OccursAt(s, f, i + 1);
      }
      forall i: nat | OccursAt(s, f, i)
        ensures i > 0 && OccursAt(s[1..], f, i - 1)
      {
        assert i > 0;
        assert s[1..][i - 1..i - 1 + |f|] == s[i..i + |f|];
      }
    }
  }

  /** `is_not_contains_forbidden_strings`: each forbidden pair tried in turn, false at the first found. */
  method NotContainsForbidden(s: string) returns (ok: bool)
    ensures ok <==> forall k :: 0 <= k < |Forbidden| ==> !Contains(s, Forbidden[k])
  {
    for k := 0 to |Forbidden|
      invariant forall k' :: 0 <= k' < k ==> !Contains(s, Forbidden[k'])
    {
      if Contains(s, Forbidden[k]) {
        return false;
      }
    }
    return true;
  }

  /** `a` followed by `b` is one of the forbidden pairs. */
  predicate ForbiddenPair(a: char, b: char) {
    (a == 'a' && b == 'b') || (a == 'c' && b == 'd') || (a == 'p' && b == 'q') || (a == 'x' && b == 'y')
  }

  /** A forbidden pair sits at some position. */
  ghost predicate HasForbiddenPair(s: string) {
    exists i :: 0 <= i && i + 1 < |s| && ForbiddenPair(s[i], s[i + 1])
  }

  /** The check fails exactly when one of "ab", "cd", "pq", "xy" sits somewhere in `s`. */
  lemma ForbiddenPairs(s: string)
    ensures (exists k :: 0 <= k < |Forbidden| && Contains(s, Forbidden[k])) <==> HasForbiddenPair(s)
  {
    if HasForbiddenPair(s) {
      PairsContained(s);
    }
    if exists k :: 0 <= k < |Forbidden| && Contains(s, Forbidden[k]) {
      var k :| 0 <= k < |Forbidden| && Contains(s, Forbidden[k]);
      ContainedPair(s, k);
    }
  }

  /** A forbidden pair at some position is a contained forbidden string. */
  lemma PairsContained(s: string)
    requires HasForbiddenPair(s)
    ensures exists k :: 0 <= k < |Forbidden| && Contains(s, Forbidden[k])
  {
    var i :| 0 <= i && i + 1 < |s| && ForbiddenPair(s[i], s[i + 1]);
    PairContained(s, i);
  }

  /** A forbidden pair at position `i` is one of the forbidden strings contained in `s`. */
  lemma PairContained(s: string, i: nat)
    requires i + 1 < |s| && ForbiddenPair(s[i], s[i + 1])
    ensures exists k :: 0 <= k < |Forbidden| && Contains(s, Forbidden[k])
  {
    var f := s[i..i + 2];
    assert f == [s[i], s[i + 1]];
    assert OccursAt(s, f, i);
    assert f in Forbidden;
    var k :| 0 <= k < |Forbidden| && Forbidden[k] == f;
    ContainsOccurs(s, f);
  }

  /** A contained forbidden string sits at some position as a forbidden pair. */
  lemma ContainedPair(s: string, k: nat)
    requires k < |Forbidden| && Contains(s, Forbidden[k])
    ensures HasForbiddenPair(s)
  {
    ContainsOccurs(s, Forbidden[k]);
    var i: nat :| OccursAt(s, Forbidden[k], i);
    assert s[i..i + 2][0] == s[i] && s[i..i + 2][1] == s[i + 1];
    assert ForbiddenPair(s[i], s[i + 1]);
  }

  /** The forbidden-pair checks of the source's test: "abc" and "cdd" fail, "aad" passes. */
  method ForbiddenChecks() returns (abc: bool, cdd: bool, aad: bool)
    ensures !abc && !cdd && aad
  {
    abc := NotContainsForbidden("abc");
    ForbiddenPairs("abc");
    assert ForbiddenPair("abc"[0], "abc"[1]);
    cdd := NotContainsForbidden("cdd");
    ForbiddenPairs("cdd");
    assert ForbiddenPair("cdd"[0], "cdd"[1]);
    aad := NotContainsForbidden("aad");
    ForbiddenPairs("aad");
  }

  // ---------------------------------------------------------------------
  // The verdict
  // ---------------------------------------------------------------------

  /** A nice string: three vowels, a doubled letter, and no forbidden pair. */
  ghost predicate IsNice(s: string) {
    VowelCount(s) >= 3 && HasDoublet(s) && !HasForbiddenPair(s)
  }

  /**
   * `check_string`: the three checks in order, each reached only when the
   * ones before it passed, so the doublet scan never sees an empty string.
   */
  method CheckString(s: string) returns (t: StringType)
    requires VowelCount(s) <= U8Max
    requires VowelCount(s) >= 3 ==> |Pairs(s, 0)| <= U8Max
    ensures t == Nice <==> IsNice(s)
  {
    var vowels := AtLeastThreeVowels(s);
    if vowels {
      VowelCountBounds(s, 'a');
      var doublet := AtLeastOneDoublet(s);
      if doublet {
        var clean := NotContainsForbidden(s);
        ForbiddenPairs(s);
        if clean {
          return Nice;
        }
      }
    }
    return Naughty;
  }

  /** Counting one more character adds one exactly when it is a vowel. */
  lemma VowelCountStep(s: string, k: nat)
    requires k < |s|
    ensures VowelCount(s[..k + 1]) == VowelCount(s[..k]) + (if IsVowel(s[k]) then 1 else 0)
  {
    assert s[..k + 1][..k] == s[..k];
  }

  /** A longer prefix holds at least as many vowels. */
  lemma {:induction false} VowelCountMonotone(s: string, j: nat, k: nat)
    requires j <= k <= |s|
    ensures VowelCount(s[..j]) <= VowelCount(s[..k])
    decreases k - j
  {
    if j < k {
      VowelCountMonotone(s, j, k - 1);
      VowelCountStep(s, k - 1);
    }
  }

  /** Vowels at three distinct positions make three vowels, as `is_contains_at_least_three_vowels` asks. */
  lemma ThreeVowels(s: string, i: nat, j: nat, k: nat)
    requires i < j < k < |s| && IsVowel(s[i]) && IsVowel(s[j]) && IsVowel(s[k])
    ensures VowelCount(s) >= 3
  {
    VowelBefore(s, i, j);
    VowelBefore(s, j, k);
    VowelBefore(s, k, |s|);
    assert s[..|s|] == s;
  }

  /** A vowel at `i` makes any prefix past it count one more than the prefix before it. */
  lemma VowelBefore(s: string, i: nat, j: nat)
    requires i < j <= |s| && IsVowel(s[i])
    ensures VowelCount(s[..i]) + 1 <= VowelCount(s[..j])
  {
    VowelCountStep(s, i);
    VowelCountMonotone(s, i + 1, j);
  }

  /** "ugknbfddgicrmopn" is nice: the vowels u, i and o, the doubled d, and no forbidden pair. */
  lemma NiceLetters(s: string)
    requires s == "ugknbfddgicrmopn"
    ensures IsNice(s) && VowelCount(s) <= U8Max && |Pairs(s, 0)| <= U8Max
  {
    ThreeVowels(s, 0, 9, 13);
    VowelCountBounds(s, 'a');
    assert s[6] == s[7];
    assert !HasForbiddenPair(s) by {
      forall i | 0 <= i && i + 1 < |s|
        ensures !ForbiddenPair(s[i], s[i + 1])
      {
      }
    }
    PairsShort(s, 0);
  }

  /** "aaa" is nice: three vowels that also double. */
  lemma NiceTripleA(s: string)
    requires s == "aaa"
    ensures IsNice(s) && VowelCount(s) <= U8Max && |Pairs(s, 0)| <= U8Max
  {
    ThreeVowels(s, 0, 1, 2);
    VowelCountBounds(s, 'a');
    assert s[0] == s[1];
    assert Pairs(s, 0) == "a";
  }

  /** "jchzalrnumimnmhp" is naughty: no letter is doubled. */
  lemma NaughtyNoDoublet(s: string)
    requires s == "jchzalrnumimnmhp"
    ensures !IsNice(s) && VowelCount(s) <= U8Max && |Pairs(s, 0)| <= U8Max
  {
    assert !HasDoublet(s) by {
      forall i | 0 <= i && i + 1 < |s|
        ensures s[i] != s[i + 1]
      {
      }
    }
    PairsFindDoublet(s, 0);
    VowelCountBounds(s, 'a');
  }

  /** "haegwjzuvuyypxyu" is naughty: it holds "xy". */
  lemma NaughtyForbidden(s: string)
    requires s == "haegwjzuvuyypxyu"
    ensures !IsNice(s) && VowelCount(s) <= U8Max && |Pairs(s, 0)| <= U8Max
  {
    assert ForbiddenPair(s[13], s[14]);
    VowelCountBounds(s, 'a');
    PairsShort(s, 0);
  }

  /** The scan keeps at most one letter for every two it passes. */
  lemma {:induction false} PairsShort(s: string, j: nat)
    requires j <= |s|
    ensures 2 * |Pairs(s, j)| <= |s| - j
    decreases |s| - j
  {
    if j + 1 < |s| {
      PairsShort(s, j + 1);
      PairsShort(s, j + 2);
    }
  }

  /** The verdicts of the source's test of `check_string`. */
  method CheckStringExamples() returns (first: StringType, second: StringType, third: StringType, fourth: StringType)
    ensures first == Nice && second == Nice && third == Naughty && fourth == Naughty
  {
    NiceLetters("ugknbfddgicrmopn");
    first := CheckString("ugknbfddgicrmopn");
    NiceTripleA("aaa");
    second := CheckString("aaa");
    NaughtyNoDoublet("jchzalrnumimnmhp");
    third := CheckString("jchzalrnumimnmhp");
    NaughtyForbidden("haegwjzuvuyypxyu");
    fourth := CheckString("haegwjzuvuyypxyu");
  }
}
