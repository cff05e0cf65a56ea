/**
 * The scratch card driver (2023 day 4): part one sums the points of every
 * line that parses as a card; part two starts with one copy of each of
 * 204 cards and lets every copy of card n win one copy of each of the
 * next m cards, m being its number of matches.
 */
module ScratchCardGame {
  import opened Wrappers
  import opened ScratchCards

  /** Every line can be given to `Card::new` without reaching the panicking index. */
  predicate AllIndexable(lines: seq<string>)
  {
    forall i :: 0 <= i < |lines| ==> NameIndexable(lines[i])
  }

  /** What `Card::new` makes of each line, in line order. */
  function Outcomes(lines: seq<string>): (rs: seq<Result<Card, CardCreationError>>)
    requires AllIndexable(lines)
  {
    seq(|lines|, i requires 0 <= i < |lines| => NewCard(lines[i]))
  }

  /** The cards among the outcomes, in order; the errors are skipped. */
  function Kept(rs: seq<Result<Card, CardCreationError>>): (cards: seq<Card>)
    ensures |cards| <= |rs|
  {
    if |rs| == 0 then []
    else
      var init := Kept(rs[..|rs| - 1]);
      match rs[|rs| - 1]
      case Ok(card) => init + [card]
      case Err(_) => init
  }

  /** The cards of the lines that parse, in line order; the other lines are skipped. */
  function ParsedCards(lines: seq<string>): (cards: seq<Card>)
    requires AllIndexable(lines)
  {
    Kept(Outcomes(lines))
  }

  /** A card is kept exactly when some outcome is that card. */
  lemma {:induction false} KeptExact(rs: seq<Result<Card, CardCreationError>>)
    ensures forall c :: c in Kept(rs) <==> Ok(c) in rs
  {
    if |rs| > 0 {
      var init := rs[..|rs| - 1];
      KeptExact(init);
      assert rs == init + [rs[|rs| - 1]];
    }
  }

  /** The cards of a prefix of the outcomes are a prefix of the cards. */
  lemma {:induction false} KeptPrefix(rs: seq<Result<Card, CardCreationError>>, n: nat)
    requires n <= |rs|
    ensures Kept(rs[..n]) <= Kept(rs)
    decreases |rs| - n
  {
    if n < |rs| {
      KeptPrefix(rs, n + 1);
      assert rs[..n + 1][..n] == rs[..n];
    } else {
      assert rs[..n] == rs;
    }
  }

  /** The sum of the points of the given cards. */
  function PointsOf(cards: seq<Card>): nat
  {
    if |cards| == 0 then 0 else PointsOf(cards[..|cards| - 1]) + PointsFor(|Matches(cards[|cards| - 1])|)
  }

  /** One more outcome: an error leaves the part-one total as it was; a card adds its points. */
  lemma PointsOfNext(rs: seq<Result<Card, CardCreationError>>, i: nat)
    requires i < |rs|
    ensures PointsOf(Kept(rs[..i + 1])) ==
      PointsOf(Kept(rs[..i])) + (if rs[i].Ok? then PointsFor(|Matches(rs[i].value)|) else 0)
  {
    assert rs[..i + 1][..i] == rs[..i];
  }

  /** Part one: the `total_score` accumulation over the lines that parse. */
  method TotalScore(lines: seq<string>) returns (total: nat)
    requires AllIndexable(lines)
    requires forall i :: 0 <= i < |ParsedCards(lines)| ==> |Matches(ParsedCards(lines)[i])| <= 32
    ensures total == PointsOf(ParsedCards(lines))
  {
    ghost var rs := Outcomes(lines);
    ghost var cards := Kept(rs);
    assert cards == ParsedCards(lines);
    total := 0;
    for i := 0 to |lines|
      invariant total == PointsOf(Kept(rs[..i]))
    {
      PointsOfNext(rs, i);
      KeptPrefix(rs, i + 1);
      var card := NewCard(lines[i]);
      assert card == rs[i];
      if card.Ok? {
        ghost var j := KeptLast(rs[..i + 1], cards);
        assert |Matches(cards[j])| <= 32;
        var points := CalculatePoints(card.value);
        total := total + points;
      }
    }
    assert rs[..|lines|] == rs;
  }

  /** When the last outcome is a card, it is the last card kept, and so a card of any extension. */
  lemma KeptLast(rs: seq<Result<Card, CardCreationError>>, cards: seq<Card>) returns (j: nat)
    requires |rs| > 0 && rs[|rs| - 1].Ok? && Kept(rs) <= cards
    ensures j < |cards| && cards[j] == rs[|rs| - 1].value
  {
    j := |Kept(rs)| - 1;
    assert cards[j] == rs[|rs| - 1].value;
  }

  /** The size of the fixed `cards_count` array. */
  const CardSlots: nat := 204

  /** `counts` with `k` added to each of the `m` entries starting at index `from`. */
  function AddCopies(counts: seq<nat>, from: nat, m: nat, k: nat): (r: seq<nat>)
    requires from + m <= |counts|
    ensures |r| == |counts|
    ensures forall j {:trigger r[j]} :: 0 <= j < |r| ==> r[j] == if from <= j < from + m then counts[j] + k else counts[j]
  {
    seq(|counts|, j requires 0 <= j < |counts| => if from <= j < from + m then counts[j] + k else counts[j])
  }

  function Sum(s: seq<nat>): nat
  {
    if |s| == 0 then 0 else Sum(s[..|s| - 1]) + s[|s| - 1]
  }

  /** Winning copies adds `k` copies of each of `m` cards: `k * m` cards in all. */
  lemma {:induction false} AddCopiesSum(counts: seq<nat>, from: nat, m: nat, k: nat)
    requires from + m <= |counts|
    ensures Sum(AddCopies(counts, from, m, k)) == Sum(counts) + k * m
    decreases |counts|
  {
    var r := AddCopies(counts, from, m, k);
    if m == 0 {
      assert r == counts;
    } else {
      var n := |counts| - 1;
      AddCopiesLast(counts, from, m, k);
      assert Sum(r) == Sum(r[..n]) + r[n];
      assert Sum(counts) == Sum(counts[..n]) + counts[n];
      if from + m <= n {
        AddCopiesSum(counts[..n], from, m, k);
      } else {
        AddCopiesSum(counts[..n], from, m - 1, k);
        assert k * (m - 1) + k == k * m;
      }
    }
  }

  /** The last entry of `AddCopies` and the entries before it. */
  lemma {:induction false} AddCopiesLast(counts: seq<nat>, from: nat, m: nat, k: nat)
    requires from + m <= |counts| && 0 < m
    ensures
      var n, r := |counts| - 1, AddCopies(counts, from, m, k);
      var m' := if from + m <= n then m else m - 1;
      && r[n] == counts[n] + (if from + m <= n then 0 else k)
      && r[..n] == AddCopies(counts[..n], from, m', k)
  {
    var n, r := |counts| - 1, AddCopies(counts, from, m, k);
    var m' := if from + m <= n then m else m - 1;
    var t := AddCopies(counts[..n], from, m', k);
    forall j | 0 <= j < n ensures r[..n][j] == t[j] {}
  }

  /** A card's number and its count of matches, as part two uses them. */
  datatype Win = Win(no: nat, matches: nat)

  /** Every card's number is between 1 and the slots, and its wins stay inside the slots. */
  predicate WinsFit(wins: seq<Win>, slots: nat)
  {
    forall i :: 0 <= i < |wins| ==> 1 <= wins[i].no && wins[i].no + wins[i].matches <= slots
  }

  /**
   * The copy cascade: for each card in line order, its count of copies
   * reached so far is added to each of the next `matches` cards.
   */
  function Cascade(counts: seq<nat>, wins: seq<Win>): (r: seq<nat>)
    requires WinsFit(wins, |counts|)
    ensures |r| == |counts|
  {
    if |wins| == 0 then counts
    else
      var w := wins[|wins| - 1];
      var before := Cascade(counts, wins[..|wins| - 1]);
      AddCopies(before, w.no, w.matches, before[w.no - 1])
  }

  /** Each card's number and count of matches, in card order. */
  function WinsOf(cards: seq<Card>): (wins: seq<Win>)
  {
    seq(|cards|, i requires 0 <= i < |cards| => Win(cards[i].no, |Matches(cards[i])|))
  }

  /** A card's wins only reach later cards: every entry below every card's number stays as it was. */
  lemma {:induction false} CascadeKeepsEarlier(counts: seq<nat>, wins: seq<Win>, n: nat)
    requires WinsFit(wins, |counts|)
    requires forall i :: 0 <= i < |wins| ==> wins[i].no >= n
    ensures forall j :: 0 <= j < n && j < |counts| ==> Cascade(counts, wins)[j] == counts[j]
  {
    if |wins| > 0 {
      CascadeKeepsEarlier(counts, wins[..|wins| - 1], n);
    }
  }

  /** Copies are only ever added: no count drops. */
  lemma {:induction false} CascadeGrows(counts: seq<nat>, wins: seq<Win>)
    requires WinsFit(wins, |counts|)
    ensures forall j :: 0 <= j < |counts| ==> Cascade(counts, wins)[j] >= counts[j]
  {
    if |wins| > 0 {
      CascadeGrows(counts, wins[..|wins| - 1]);
    }
  }

  /** One copy of every card. */
  function Ones(): (r: seq<nat>)
    ensures |r| == CardSlots
  {
    seq(CardSlots, _ => 1)
  }

  /** One more card adds its own wins at the end. */
  lemma WinsOfSnoc(cards: seq<Card>, c: Card)
    ensures WinsOf(cards + [c]) == WinsOf(cards) + [Win(c.no, |Matches(c)|)]
  {
    var a, b := WinsOf(cards + [c]), WinsOf(cards) + [Win(c.no, |Matches(c)|)];
    forall j | 0 <= j < |a| ensures a[j] == b[j] {
      if j < |cards| {
        assert (cards + [c])[j] == cards[j];
      }
    }
  }

  /** When all wins fit, so do the wins of the cards of any prefix of the outcomes. */
  lemma WinsFitPrefix(rs: seq<Result<Card, CardCreationError>>, n: nat, slots: nat)
    requires n <= |rs| && WinsFit(WinsOf(Kept(rs)), slots)
    ensures WinsFit(WinsOf(Kept(rs[..n])), slots)
  {
    KeptPrefix(rs, n);
    var a, b := Kept(rs[..n]), Kept(rs);
    forall j | 0 <= j < |a| ensures 1 <= a[j].no && a[j].no + |Matches(a[j])| <= slots {
      assert a[j] == b[j];
      assert WinsOf(b)[j] == Win(b[j].no, |Matches(b[j])|);
    }
  }

  /**
   * The wins of one more outcome: a card's wins are appended, an error adds
   * none; when all wins fit, so do those before and after it.
   */
  lemma WinsOfNext(rs: seq<Result<Card, CardCreationError>>, i: nat, slots: nat)
    requires i < |rs| && WinsFit(WinsOf(Kept(rs)), slots)
    ensures WinsOf(Kept(rs[..i + 1])) == WinsOf(Kept(rs[..i])) +
      (if rs[i].Ok? then [Win(rs[i].value.no, |Matches(rs[i].value)|)] else [])
    ensures WinsFit(WinsOf(Kept(rs[..i])), slots) && WinsFit(WinsOf(Kept(rs[..i + 1])), slots)
    ensures rs[i].Ok? ==> 1 <= rs[i].value.no && rs[i].value.no + |Matches(rs[i].value)| <= slots
  {
    assert rs[..i + 1][..i] == rs[..i];
    WinsFitPrefix(rs, i, slots);
    WinsFitPrefix(rs, i + 1, slots);
    if rs[i].Ok? {
      WinsOfSnoc(Kept(rs[..i]), rs[i].value);
      var next := WinsOf(Kept(rs[..i + 1]));
      assert next[|next| - 1] == Win(rs[i].value.no, |Matches(rs[i].value)|);
    } else {
      assert Kept(rs[..i + 1]) == Kept(rs[..i]);
    }
  }

  /**
   * Part two: the nested loops over `cards_count`. Each card's number
   * must index the array and its wins must stay inside it.
   */
  method TotalCards(lines: seq<string>) returns (total: nat)
    requires AllIndexable(lines)
    requires WinsFit(WinsOf(ParsedCards(lines)), CardSlots)
    ensures total == Sum(Cascade(Ones(), WinsOf(ParsedCards(lines))))
  {
    var counts := new nat[CardSlots](_ => 1);
    assert counts[..] == Ones();
    PlayCards(counts, lines);
    total := SumArray(counts);
  }

  /** After the first `i` outcomes, the counts are the cascade of their cards' wins. */
  ghost predicate Played(counts: array<nat>, start: seq<nat>, rs: seq<Result<Card, CardCreationError>>, i: nat)
    reads counts
  {
    && i <= |rs|
    && WinsFit(WinsOf(Kept(rs[..i])), |start|)
    && counts[..] == Cascade(start, WinsOf(Kept(rs[..i])))
  }

  /** The outer loop over the lines: each card that parses wins its copies in turn. */
  method PlayCards(counts: array<nat>, lines: seq<string>)
    requires AllIndexable(lines)
    requires WinsFit(WinsOf(ParsedCards(lines)), counts.Length)
    modifies counts
    ensures counts[..] == Cascade(old(counts[..]), WinsOf(ParsedCards(lines)))
  {
    ghost var start := counts[..];
    ghost var rs := Outcomes(lines);
    assert rs[..0] == [];
    for i := 0 to |lines|
      invariant Played(counts, start, rs, i)
    {
      var card := NewCard(lines[i]);
      PlayLine(counts, card, i, start, rs);
    }
    assert rs[..|lines|] == rs;
  }

  /** One line of the outer loop: a card that parses adds its copies to the cards it wins. */
  method PlayLine(counts: array<nat>, card: Result<Card, CardCreationError>, i: nat,
                  ghost start: seq<nat>, ghost rs: seq<Result<Card, CardCreationError>>)
    requires i < |rs| && rs[i] == card
    requires WinsFit(WinsOf(Kept(rs)), |start|)
    requires Played(counts, start, rs, i)
    modifies counts
    ensures Played(counts, start, rs, i + 1)
  {
    WinsOfNext(rs, i, |start|);
    ghost var wins := WinsOf(Kept(rs[..i]));
    if card.Ok? {
      var w := Win(card.value.no, |Matches(card.value)|);
      ghost var next := WinsOf(Kept(rs[..i + 1]));
      assert next == wins + [w];
      assert next[..|wins|] == wins && next[|wins|] == w;
      PlayWin(counts, w, start, next);
    } else {
      assert wins + [] == wins;
    }
  }

  /** The card that closes `next` adds its copies to the counts reached by the cards before it. */
  method PlayWin(counts: array<nat>, w: Win, ghost start: seq<nat>, ghost next: seq<Win>)
    requires |next| > 0 && next[|next| - 1] == w
    requires WinsFit(next, |start|) && WinsFit(next[..|next| - 1], |start|)
    requires counts[..] == Cascade(start, next[..|next| - 1])
    modifies counts
    ensures counts[..] == Cascade(start, next)
  {
    CascadeStep(start, next, |next| - 1);
    assert next[..|next|] == next;
    AddCards(counts, w.no, w.matches);
  }

  /** The inner loops for one card: `k` rounds, each adding one copy to each of the `m` following cards. */
  method AddCards(counts: array<nat>, no: nat, m: nat)
    requires 1 <= no && no + m <= counts.Length
    modifies counts
    ensures counts[..] == AddCopies(old(counts[..]), no, m, old(counts[no - 1]))
  {
    var k := counts[no - 1];
    ghost var before := counts[..];
    for round := 0 to k
      invariant forall j :: 0 <= j < counts.Length ==>
        counts[j] == if no <= j < no + m then before[j] + round else before[j]
    {
      for i := no to no + m
        invariant forall j :: 0 <= j < counts.Length ==>
          counts[j] == if no <= j < i then before[j] + round + 1
                       else if i <= j < no + m then before[j] + round
                       else before[j]
      {
        counts[i] := counts[i] + 1;
      }
    }
    assert counts[..] == AddCopies(before, no, m, k);
  }

  /** `cards_count.iter().sum()`. */
  method SumArray(a: array<nat>) returns (total: nat)
    ensures total == Sum(a[..])
  {
    total := 0;
    for i := 0 to a.Length
      invariant total == Sum(a[..i])
    {
      assert a[..i + 1][..i] == a[..i];
      total := total + a[i];
    }
    assert a[..a.Length] == a[..];
  }

  /**
   * The sample of six cards with 4, 2, 2, 1, 0 and 0 matches ends with
   * 1, 2, 4, 8, 14 and 1 copies.
   */
  lemma SampleCascade(counts: seq<nat>, wins: seq<Win>)
    requires counts == [1, 1, 1, 1, 1, 1]
    requires wins == [Win(1, 4), Win(2, 2), Win(3, 2), Win(4, 1), Win(5, 0), Win(6, 0)]
    ensures Cascade(counts, wins) == [1, 2, 4, 8, 14, 1]
  {
    var c1, c2, c3, c4 := [1, 2, 2, 2, 2, 1], [1, 2, 4, 4, 2, 1], [1, 2, 4, 8, 6, 1], [1, 2, 4, 8, 14, 1];
    SampleFirstRounds(counts, c1, c2);
    SampleLastRounds(c2, c3, c4);
    assert wins[..0] == [];
    CascadeFrom(counts, wins, 0, counts, c1);
    CascadeFrom(counts, wins, 1, c1, c2);
    CascadeFrom(counts, wins, 2, c2, c3);
    CascadeFrom(counts, wins, 3, c3, c4);
    CascadeFrom(counts, wins, 4, c4, c4);
    CascadeFrom(counts, wins, 5, c4, c4);
    assert wins[..6] == wins;
  }

  /** The copies won by the first two sample cards. */
  lemma SampleFirstRounds(c0: seq<nat>, c1: seq<nat>, c2: seq<nat>)
    requires c0 == [1, 1, 1, 1, 1, 1] && c1 == [1, 2, 2, 2, 2, 1] && c2 == [1, 2, 4, 4, 2, 1]
    ensures AddCopies(c0, 1, 4, c0[0]) == c1 && AddCopies(c1, 2, 2, c1[1]) == c2
  {
  }

  /** The copies won by the last four sample cards. */
  lemma SampleLastRounds(c2: seq<nat>, c3: seq<nat>, c4: seq<nat>)
    requires c2 == [1, 2, 4, 4, 2, 1] && c3 == [1, 2, 4, 8, 6, 1] && c4 == [1, 2, 4, 8, 14, 1]
    ensures AddCopies(c2, 3, 2, c2[2]) == c3 && AddCopies(c3, 4, 1, c3[3]) == c4
    ensures AddCopies(c4, 5, 0, c4[4]) == c4 && AddCopies(c4, 6, 0, c4[5]) == c4
  {
  }

  /** The cascade over one more card, from the counts reached before it. */
  lemma CascadeStep(counts: seq<nat>, wins: seq<Win>, k: nat)
    requires WinsFit(wins, |counts|) && k < |wins|
    ensures WinsFit(wins[..k], |counts|) && WinsFit(wins[..k + 1], |counts|)
    ensures Cascade(counts, wins[..k + 1]) ==
      AddCopies(Cascade(counts, wins[..k]), wins[k].no, wins[k].matches, Cascade(counts, wins[..k])[wins[k].no - 1])
  {
    WinsFitSlice(wins, k, |counts|);
    WinsFitSlice(wins, k + 1, |counts|);
    var prefix := wins[..k + 1];
    assert prefix[..|prefix| - 1] == wins[..k] && prefix[|prefix| - 1] == wins[k];
  }

  /** The cascade over one more card, from known counts before it. */
  lemma CascadeFrom(counts: seq<nat>, wins: seq<Win>, k: nat, before: seq<nat>, after: seq<nat>)
    requires WinsFit(wins, |counts|) && k < |wins|
    requires WinsFit(wins[..k], |counts|) && Cascade(counts, wins[..k]) == before
    requires after == AddCopies(before, wins[k].no, wins[k].matches, before[wins[k].no - 1])
    ensures WinsFit(wins[..k + 1], |counts|) && Cascade(counts, wins[..k + 1]) == after
  {
    CascadeStep(counts, wins, k);
  }

  /** A prefix of cards that fit the slots fits them too. */
  lemma WinsFitSlice(wins: seq<Win>, n: nat, slots: nat)
    requires WinsFit(wins, slots) && n <= |wins|
    ensures WinsFit(wins[..n], slots)
  {
  }
}
