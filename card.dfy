/**
 * Scratch cards (2023 day 4): a line "Card 3: 1 21 53 | 69 82 1" is a
 * card with a name, a number, the winning numbers and the numbers drawn.
 * A card's matches are the drawn numbers that are also winning numbers,
 * and its points double with every match after the first.
 */
module ScratchCards {
  import opened Wrappers
  import opened Text
  import opened Ints


  datatype CardCreationError =
    | NoNameSeparator
    | NoNumbersSeparator
    | NoNumberInName
    | NoWinningNumbers
    | NoNumbers

  datatype Card = Card(name: string, no: nat, winning: seq<nat>, numbers: seq<nat>)

  /** A token read as a `u32`. */
  function ParseU32(t: string): (r: Option<nat>)
    ensures r.Some? ==> r.value <= U32Max
  {
    ParseUnsigned(t, U32Max)
  }

  /** The `filter_map` over tokens: the ones that read as `u32`, in order; the others are dropped. */
  function KeptNumbers(tokens: seq<string>): (ns: seq<nat>)
    ensures |ns| <= |tokens|
    ensures forall i :: 0 <= i < |ns| ==> ns[i] <= U32Max
  {
    if |tokens| == 0 then []
    else
      var init := KeptNumbers(tokens[..|tokens| - 1]);
      match ParseU32(tokens[|tokens| - 1])
      case Some(n) => init + [n]
      case None => init
  }

  /**
   * `Card::new` indexes the second whitespace token of the name; a line
   * with one ':' whose name has fewer than two tokens makes it panic.
   */
  predicate NameIndexable(s: string)
  {
    |Split(s, ':')| == 2 ==> |Words(Split(s, ':')[0])| >= 2
  }

  /**
   * `Card::new`: one ':' separates the name from the content, the name's
   * second token is the card number, one '|' separates the winning numbers
   * from the drawn ones, and neither list may end up empty.
   */
  function NewCard(s: string): (r: Result<Card, CardCreationError>)
    requires NameIndexable(s)
    ensures r.Ok? ==> ':' !in r.value.name && r.value.no <= U32Max
    ensures r.Ok? ==> |r.value.winning| > 0 && |r.value.numbers| > 0
    ensures r.Ok? ==> forall i :: 0 <= i < |r.value.winning| ==> r.value.winning[i] <= U32Max
    ensures r.Ok? ==> forall i :: 0 <= i < |r.value.numbers| ==> r.value.numbers[i] <= U32Max
  {
    var nameContent := Split(s, ':');
    if |nameContent| != 2 then Err(NoNameSeparator)
    else
      var name := nameContent[0];
      match ParseU32(Words(name)[1])
      case None => Err(NoNumberInName)
      case Some(no) =>
        var content := Split(nameContent[1], '|');
        if |content| != 2 then Err(NoNumbersSeparator)
        else
          var winning := KeptNumbers(Words(content[0]));
          if |winning| == 0 then Err(NoWinningNumbers)
          else
            var numbers := KeptNumbers(Words(content[1]));
            if |numbers| == 0 then Err(NoNumbers)
            else Ok(Card(name, no, winning, numbers))
  }

  /**
   * Every readable token's value is kept, every kept value is some readable
   * token's value, and when every token is readable none is dropped.
   */
  lemma {:induction false} KeptNumbersExact(tokens: seq<string>)
    ensures forall i :: 0 <= i < |tokens| && ParseU32(tokens[i]).Some? ==> ParseU32(tokens[i]).value in KeptNumbers(tokens)
    ensures forall n :: n in KeptNumbers(tokens) ==> exists i :: 0 <= i < |tokens| && ParseU32(tokens[i]) == Some(n)
    ensures (forall i :: 0 <= i < |tokens| ==> ParseU32(tokens[i]).Some?) ==> |KeptNumbers(tokens)| == |tokens|
  {
    if |tokens| > 0 {
      var init := tokens[..|tokens| - 1];
      KeptNumbersExact(init);
      assert forall i :: 0 <= i < |init| ==> init[i] == tokens[i];
    }
  }

  /** Some token reads as a `u32`. */
  predicate AnyReadable(tokens: seq<string>) {
    exists i :: 0 <= i < |tokens| && ParseU32(tokens[i]).Some?
  }

  /** A number list comes out empty exactly when none of its tokens reads as a `u32`. */
  lemma KeptEmptyIff(tokens: seq<string>)
    ensures |KeptNumbers(tokens)| == 0 <==> !AnyReadable(tokens)
  {
    KeptNumbersExact(tokens);
    if |KeptNumbers(tokens)| > 0 {
      assert KeptNumbers(tokens)[0] in KeptNumbers(tokens);
    }
  }

  /**
   * `Card::new`, check by check in the source's order: exactly one ':'
   * (`NoNameSeparator`), a `u32` as the name's second token
   * (`NoNumberInName`), exactly one '|' (`NoNumbersSeparator`), a readable
   * winning number (`NoWinningNumbers`), a readable drawn number
   * (`NoNumbers`). Each error is returned exactly when its check fails and
   * every earlier one passed. An accepted card keeps the name verbatim, the
   * name's number, and the readable tokens on each side of the '|'.
   */
  lemma NewCardContract(s: string)
    requires NameIndexable(s)
    ensures |Split(s, ':')| == 2 <==> Count(s, ':') == 1
    ensures NewCard(s) == Err(NoNameSeparator) <==> Count(s, ':') != 1
    ensures |Split(s, ':')| == 2 ==>
      var name, content := Split(s, ':')[0], Split(s, ':')[1];
      var no, parts := ParseU32(Words(name)[1]), Split(content, '|');
      && name + ":" + content == s
      && (|parts| == 2 <==> Count(content, '|') == 1)
      && (NewCard(s) == Err(NoNumberInName) <==> no.None?)
      && (NewCard(s) == Err(NoNumbersSeparator) <==> no.Some? && |parts| != 2)
      && (NewCard(s) == Err(NoWinningNumbers) <==> no.Some? && |parts| == 2 && !AnyReadable(Words(parts[0])))
      && (NewCard(s) == Err(NoNumbers) <==>
            no.Some? && |parts| == 2 && AnyReadable(Words(parts[0])) && !AnyReadable(Words(parts[1])))
      && (NewCard(s).Ok? <==>
            no.Some? && |parts| == 2 && AnyReadable(Words(parts[0])) && AnyReadable(Words(parts[1])))
      && (NewCard(s).Ok? ==>
            NewCard(s).value == Card(name, no.value, KeptNumbers(Words(parts[0])), KeptNumbers(Words(parts[1]))))
  {
    SplitCount(s, ':');
    var nameContent := Split(s, ':');
    if |nameContent| == 2 {
      JoinSplit(s, ':');
      assert Join(nameContent, ':') == nameContent[0] + [':'] + nameContent[1];
      var parts := Split(nameContent[1], '|');
      SplitCount(nameContent[1], '|');
      if |parts| == 2 {
        KeptEmptyIff(Words(parts[0]));
        KeptEmptyIff(Words(parts[1]));
      }
    }
  }

  /** A line splits into one more part than it has separators. */
  lemma {:induction false} SplitCount(s: string, sep: char)
    ensures |Split(s, sep)| == Count(s, sep) + 1
  {
    if |s| > 0 {
      SplitCount(s[1..], sep);
      CountFront(s, sep);
    }
  }

  /** Counting from the front agrees with counting from the back. */
  lemma {:induction false} CountFront(s: string, c: char)
    requires |s| > 0
    ensures Count(s, c) == (if s[0] == c then 1 else 0) + Count(s[1..], c)
  {
    if |s| > 1 {
      CountFront(s[..|s| - 1], c);
      assert s[..|s| - 1][1..] == s[1..][..|s[1..]| - 1];
    }
  }

  /** `get_matches`: the drawn numbers that are winning numbers, in drawn order, repeats included. */
  function Matches(card: Card): (m: seq<nat>)
    ensures |m| <= |card.numbers|
  {
    MatchesIn(card.numbers, card.winning)
  }

  function MatchesIn(numbers: seq<nat>, winning: seq<nat>): (m: seq<nat>)
    ensures |m| <= |numbers|
  {
    if |numbers| == 0 then []
    else
      var init := MatchesIn(numbers[..|numbers| - 1], winning);
      var n := numbers[|numbers| - 1];
      if n in winning then init + [n] else init
  }

  /** A number is matched exactly when it is both drawn and winning, and every drawn winning number counts once per draw. */
  lemma {:induction false} MatchesContract(numbers: seq<nat>, winning: seq<nat>)
    ensures forall n :: n in MatchesIn(numbers, winning) <==> n in numbers && n in winning
    ensures forall n :: n in winning ==> multiset(MatchesIn(numbers, winning))[n] == multiset(numbers)[n]
    ensures forall n :: n !in winning ==> multiset(MatchesIn(numbers, winning))[n] == 0
  {
    if |numbers| > 0 {
      var init := numbers[..|numbers| - 1];
      MatchesContract(init, winning);
      assert numbers == init + [numbers[|numbers| - 1]];
    }
  }

  function Pow2(k: nat): (p: nat)
    ensures p >= 1
  {
    if k == 0 then 1 else 2 * Pow2(k - 1)
  }

  /** The points for `m` matches: none for none, then 1, 2, 4, ... */
  function PointsFor(m: nat): nat
  {
    if m == 0 then 0 else Pow2(m - 1)
  }

  /** Each match after the first doubles the points. */
  lemma PointsDouble(m: nat)
    requires m >= 1
    ensures PointsFor(m + 1) == 2 * PointsFor(m)
  {
  }

  /**
   * `calculate_points`: start at 1 for the first match and double once per
   * further match. The `u32` doubling overflows beyond 32 matches.
   */
  method CalculatePoints(card: Card) returns (score: nat)
    requires |Matches(card)| <= 32
    ensures score == PointsFor(|Matches(card)|)
    ensures score <= U32Max
  {
    var matches := |Matches(card)|;
    score := 0;
    if matches > 0 {
      score := score + 1;
    }
    if matches > 1 {
      for k := 1 to matches
        invariant score == Pow2(k - 1)
      {
        score := score * 2;
      }
    }
    PointsBound(matches);
  }

  lemma {:induction false} Pow2Add(a: nat, b: nat)
    ensures Pow2(a + b) == Pow2(a) * Pow2(b)
    decreases a
  {
    if a > 0 {
      Pow2Add(a - 1, b);
    }
  }

  lemma {:induction false} Pow2Monotone(a: nat, b: nat)
    requires a <= b
    ensures Pow2(a) <= Pow2(b)
  {
    Pow2Add(a, b - a);
  }

  /** Thirty-one doublings give 2^31. */
  lemma Pow2ThirtyOne()
    ensures Pow2(31) == 0x8000_0000
  {
    assert Pow2(4) == 16 && Pow2(3) == 8;
    Pow2Add(4, 4);
    Pow2Add(8, 8);
    Pow2Add(16, 8);
    Pow2Add(24, 4);
    Pow2Add(28, 3);
  }

  /** Up to 32 matches, the points fit in a `u32`. */
  lemma PointsBound(m: nat)
    requires m <= 32
    ensures PointsFor(m) <= U32Max
  {
    if m > 0 {
      Pow2ThirtyOne();
      Pow2Monotone(m - 1, 31);
    }
  }

  /** Appending a drawn number appends it to the matches exactly when it is a winning number. */
  lemma MatchesSnoc(numbers: seq<nat>, n: nat, winning: seq<nat>)
    ensures MatchesIn(numbers + [n], winning) == MatchesIn(numbers, winning) + (if n in winning then [n] else [])
  {
    assert (numbers + [n])[..|numbers|] == numbers;
  }

  /** With no drawn number among the winning ones there is no match. */
  lemma {:induction false} NoWinnersNoMatches(numbers: seq<nat>, winning: seq<nat>)
    requires forall i :: 0 <= i < |numbers| ==> numbers[i] !in winning
    ensures MatchesIn(numbers, winning) == []
  {
    if |numbers| > 0 {
      NoWinnersNoMatches(numbers[..|numbers| - 1], winning);
    }
  }

  /** The matches of two runs of drawn numbers are the matches of each run, in order. */
  lemma {:induction false} MatchesAppend(a: seq<nat>, b: seq<nat>, winning: seq<nat>)
    ensures MatchesIn(a + b, winning) == MatchesIn(a, winning) + MatchesIn(b, winning)
  {
    if |b| > 0 {
      var front, n := b[..|b| - 1], b[|b| - 1];
      MatchesAppend(a, front, winning);
      assert a + b == (a + front) + [n];
      MatchesSnoc(a + front, n, winning);
      MatchesSnoc(front, n, winning);
      assert b == front + [n];
    } else {
      assert a + b == a;
    }
  }

  /** The first sample card of the source's tests has four matches, worth 8 points. */
  lemma SampleFourMatches(numbers: seq<nat>, winning: seq<nat>)
    requires numbers == [83, 86, 6, 31, 17, 9, 48, 53] && winning == [41, 48, 83, 86, 17]
    ensures MatchesIn(numbers, winning) == [83, 86, 17, 48]
    ensures PointsFor(|MatchesIn(numbers, winning)|) == 8
  {
    var a, b := [83, 86, 6, 31], [17, 9, 48, 53];
    assert numbers == a + b;
    MatchesAppend(a, b, winning);
    SampleFirstDraws(a, winning);
    SampleLastDraws(b, winning);
    assert PointsFor(4) == 8;
  }

  /** The first four numbers drawn on the first sample card. */
  lemma SampleFirstDraws(a: seq<nat>, winning: seq<nat>)
    requires a == [83, 86, 6, 31] && winning == [41, 48, 83, 86, 17]
    ensures MatchesIn(a, winning) == [83, 86]
  {
    assert 83 in winning && 86 in winning && 6 !in winning && 31 !in winning;
    MatchesSnoc([], 83, winning);
    assert [] + [83] == [83];
    MatchesSnoc([83], 86, winning);
    assert [83] + [86] == [83, 86];
    MatchesSnoc([83, 86], 6, winning);
    assert [83, 86] + [6] == [83, 86, 6];
    MatchesSnoc([83, 86, 6], 31, winning);
    assert [83, 86, 6] + [31] == a;
  }

  /** The last four numbers drawn on the first sample card. */
  lemma SampleLastDraws(b: seq<nat>, winning: seq<nat>)
    requires b == [17, 9, 48, 53] && winning == [41, 48, 83, 86, 17]
    ensures MatchesIn(b, winning) == [17, 48]
  {
    assert 17 in winning && 9 !in winning && 48 in winning && 53 !in winning;
    MatchesSnoc([], 17, winning);
    assert [] + [17] == [17];
    MatchesSnoc([17], 9, winning);
    assert [17] + [9] == [17, 9];
    MatchesSnoc([17, 9], 48, winning);
    assert [17, 9] + [48] == [17, 9, 48];
    MatchesSnoc([17, 9, 48], 53, winning);
    assert [17, 9, 48] + [53] == b;
  }

  /** The fifth sample card of the source's tests has no match and scores nothing. */
  lemma SampleNoMatch(numbers: seq<nat>, winning: seq<nat>)
    requires numbers == [88, 30, 70, 12, 93, 22, 82, 36] && winning == [87, 83, 26, 28, 32]
    ensures MatchesIn(numbers, winning) == []
    ensures PointsFor(|MatchesIn(numbers, winning)|) == 0
  {
    NoWinnersNoMatches(numbers, winning);
  }
  /** A decimal rendering is a single word made of digits, with no separator in it. */
  lemma DecimalWord(n: nat)
    ensures IsWord(DecimalString(n))
    ensures ':' !in DecimalString(n) && '|' !in DecimalString(n)
    ensures ParseU32(DecimalString(n)) == if n <= U32Max then Some(n) else None
  {
    var s := DecimalString(n);
    assert forall i :: 0 <= i < |s| ==> IsDigit(s[i]);
    DecimalStringValue(n);
  }

  /** The name "<word> <no>" has the card number as its second token. */
  lemma NamePart(word: string, no: nat)
    requires IsWord(word)
    ensures Words(word + " " + DecimalString(no)) == [word, DecimalString(no)]
  {
    DecimalWord(no);
    assert word + " " + DecimalString(no) == word + [' '] + DecimalString(no);
    WordsAround(word, ' ', DecimalString(no));
    WordsOfWord(DecimalString(no));
  }

  /** Text with exactly one separator splits into the text before it and the text after it. */
  lemma SplitAtOnly(a: string, sep: char, b: string)
    requires sep !in a && sep !in b
    ensures Split(a + [sep] + b, sep) == [a, b]
  {
    SplitAround(a, sep, b);
    SplitNoSeparator(b, sep);
  }

  /** One number of a card line as the puzzle input lays it out: a blank, then the number right-aligned in two columns. */
  function Field(n: nat): string
  {
    (if n < 10 then "  " else " ") + DecimalString(n)
  }

  /** A list of numbers laid out field after field. */
  function Fields(ns: seq<nat>): string
  {
    if |ns| == 0 then "" else Field(ns[0]) + Fields(ns[1..])
  }

  /** The decimal renderings of a list of numbers. */
  function Decimals(ns: seq<nat>): (ds: seq<string>)
    ensures |ds| == |ns|
  {
    seq(|ns|, i requires 0 <= i < |ns| => DecimalString(ns[i]))
  }

  /** The text of a card: "<name>:<winning fields> |<drawn fields>". */
  function CardText(name: string, winning: seq<nat>, numbers: seq<nat>): string
  {
    name + ":" + (Fields(winning) + " |" + Fields(numbers))
  }

  /** A word followed by nothing or by whitespace is the first word of the text. */
  lemma WordThenBlank(d: string, rest: string)
    requires IsWord(d) && (|rest| == 0 || IsWhitespace(rest[0]))
    ensures Words(d + rest) == [d] + Words(rest)
  {
    if |rest| == 0 {
      WordsOfWord(d);
      assert d + rest == d;
    } else {
      var c, r := rest[0], rest[1..];
      assert rest == [c] + r;
      assert d + rest == d + [c] + r;
      WordsAround(d, c, r);
      WordsSkipBlank(c, r);
    }
  }

  /** A field followed by nothing or by whitespace gives its number's rendering as the next word. */
  lemma FieldWords(n: nat, rest: string)
    requires |rest| == 0 || IsWhitespace(rest[0])
    ensures Words(Field(n) + rest) == [DecimalString(n)] + Words(rest)
  {
    var d := DecimalString(n);
    DecimalWord(n);
    WordThenBlank(d, rest);
    var pad := if n < 10 then "  " else " ";
    assert Field(n) + rest == pad + (d + rest);
    WordsAfterBlanks(pad, d + rest);
  }

  /** Leading blanks are skipped. */
  lemma {:induction false} WordsAfterBlanks(pad: string, t: string)
    requires AllBlank(pad)
    ensures Words(pad + t) == Words(t)
  {
    if |pad| > 0 {
      WordsAfterBlanks(pad[1..], t);
      assert pad + t == [pad[0]] + (pad[1..] + t);
      WordsSkipBlank(pad[0], pad[1..] + t);
    } else {
      assert pad + t == t;
    }
  }

  /** Laid-out numbers followed by blanks split into their decimal renderings, whatever the padding. */
  lemma {:induction false} FieldsWords(ns: seq<nat>, tail: string)
    requires AllBlank(tail)
    ensures Words(Fields(ns) + tail) == Decimals(ns)
  {
    if |ns| == 0 {
      WordsOfBlank(tail);
      assert Fields(ns) + tail == tail;
    } else {
      var rest := Fields(ns[1..]) + tail;
      FieldsWords(ns[1..], tail);
      if |ns[1..]| > 0 {
        assert rest[0] == Field(ns[1..][0])[0];
      }
      FieldWords(ns[0], rest);
      assert Fields(ns) + tail == Field(ns[0]) + rest;
      assert Decimals(ns) == [DecimalString(ns[0])] + Decimals(ns[1..]);
    }
  }

  /** Laid-out numbers hold neither separator. */
  lemma {:induction false} FieldsNoSeparator(ns: seq<nat>)
    ensures ':' !in Fields(ns) && '|' !in Fields(ns)
  {
    if |ns| > 0 {
      FieldsNoSeparator(ns[1..]);
      DecimalWord(ns[0]);
    }
  }

  /** Decimal renderings of `u32` values are all kept, in order. */
  lemma {:induction false} KeptDecimals(ns: seq<nat>)
    requires forall i :: 0 <= i < |ns| ==> ns[i] <= U32Max
    ensures KeptNumbers(Decimals(ns)) == ns
  {
    if |ns| > 0 {
      var init := ns[..|ns| - 1];
      KeptDecimals(init);
      assert Decimals(ns)[..|ns| - 1] == Decimals(init);
      DecimalWord(ns[|ns| - 1]);
      assert init + [ns[|ns| - 1]] == ns;
    }
  }

  /** `Card::new` once the line's two splits are known. */
  lemma NewCardFromSplits(s: string, name: string, content: string, left: string, right: string, no: nat)
    requires Split(s, ':') == [name, content]
    requires |Words(name)| >= 2 && ParseU32(Words(name)[1]) == Some(no)
    requires Split(content, '|') == [left, right]
    ensures NameIndexable(s)
    ensures
      var winning, numbers := KeptNumbers(Words(left)), KeptNumbers(Words(right));
      NewCard(s) ==
        if |winning| == 0 then Err(NoWinningNumbers)
        else if |numbers| == 0 then Err(NoNumbers)
        else Ok(Card(name, no, winning, numbers))
  {
  }

  /** The two splits `Card::new` makes on a card line laid out as in the puzzle input. */
  lemma {:induction false} CardSplits(name: string, winning: seq<nat>, numbers: seq<nat>)
    requires ':' !in name
    ensures
      var content := Fields(winning) + " |" + Fields(numbers);
      && Split(CardText(name, winning, numbers), ':') == [name, content]
      && Split(content, '|') == [Fields(winning) + " ", Fields(numbers)]
  {
    var left, right := Fields(winning) + " ", Fields(numbers);
    var content := Fields(winning) + " |" + Fields(numbers);
    FieldsNoSeparator(winning);
    FieldsNoSeparator(numbers);
    assert content == left + ['|'] + right;
    assert CardText(name, winning, numbers) == name + [':'] + content;
    SplitAtOnly(name, ':', content);
    SplitAtOnly(left, '|', right);
  }

  /**
   * Round trip: a line "<word> <no>:<winning> |<drawn>" with the numbers
   * laid out as in the puzzle input parses to card `no` with exactly those
   * lists, in order, or to the error for the first empty list.
   */
  lemma ParseCardText(word: string, no: nat, winning: seq<nat>, numbers: seq<nat>)
    requires IsWord(word) && ':' !in word && no <= U32Max
    requires forall i :: 0 <= i < |winning| ==> winning[i] <= U32Max
    requires forall i :: 0 <= i < |numbers| ==> numbers[i] <= U32Max
    ensures
      var s := CardText(word + " " + DecimalString(no), winning, numbers);
      && NameIndexable(s)
      && NewCard(s) ==
        if |winning| == 0 then Err(NoWinningNumbers)
        else if |numbers| == 0 then Err(NoNumbers)
        else Ok(Card(word + " " + DecimalString(no), no, winning, numbers))
  {
    DecimalWord(no);
    var name := word + " " + DecimalString(no);
    var left, right := Fields(winning) + " ", Fields(numbers);
    var content := Fields(winning) + " |" + Fields(numbers);
    CardSplits(name, winning, numbers);
    NamePart(word, no);
    FieldsWords(winning, " ");
    FieldsWords(numbers, "");
    assert right + "" == right;
    KeptDecimals(winning);
    KeptDecimals(numbers);
    NewCardFromSplits(CardText(name, winning, numbers), name, content, left, right, no);
  }

  /** A line "<word> <no>:<numbers>" has the name separator but no '|'. */
  lemma ParseCardWithoutBar(word: string, no: nat, ns: seq<nat>)
    requires IsWord(word) && ':' !in word && no <= U32Max
    ensures
      var s := word + " " + DecimalString(no) + ":" + Fields(ns);
      NameIndexable(s) && NewCard(s) == Err(NoNumbersSeparator)
  {
    DecimalWord(no);
    var name := word + " " + DecimalString(no);
    FieldsNoSeparator(ns);
    assert name + ":" + Fields(ns) == name + [':'] + Fields(ns);
    SplitAtOnly(name, ':', Fields(ns));
    SplitNoSeparator(Fields(ns), '|');
    NamePart(word, no);
  }


  /** A field of a number below 100 is three characters: a blank, the tens digit or a blank, the units digit. */
  lemma FieldSmall(n: nat)
    requires n < 100
    ensures Field(n) == [' ', if n < 10 then ' ' else DigitChar(n / 10), DigitChar(n % 10)]
  {
    if n >= 10 {
      assert DecimalString(n) == [DigitChar(n / 10)] + [DigitChar(n % 10)];
    }
  }

  /** The name "Card 1" of the source's examples. */
  lemma CardOneName()
    ensures "Card" + " " + DecimalString(1) == "Card 1"
  {
  }

  /** The layout of card 1's winning numbers. */
  lemma CardOneWinning()
    ensures Fields([41, 48, 83, 86, 17]) == " 41 48 83 86 17"
  {
    FieldSmall(41); FieldSmall(48); FieldSmall(83); FieldSmall(86); FieldSmall(17);
  }

  /** The layout of card 1's drawn numbers, with the double blanks before 6 and 9. */
  lemma CardOneDrawn()
    ensures Fields([83, 86, 6, 31, 17, 9, 48, 53]) == " 83 86  6 31" + " 17  9 48 53"
  {
    CardOneDrawnHalves();
    FieldsAppend([83, 86, 6, 31], [17, 9, 48, 53]);
    assert [83, 86, 6, 31] + [17, 9, 48, 53] == [83, 86, 6, 31, 17, 9, 48, 53];
  }

  /** The two halves of card 1's drawn numbers. */
  lemma CardOneDrawnHalves()
    ensures Fields([83, 86, 6, 31]) == " 83 86  6 31"
    ensures Fields([17, 9, 48, 53]) == " 17  9 48 53"
  {
    CardOneDrawnFront();
    FieldSmall(17); FieldSmall(9); FieldSmall(48); FieldSmall(53);
  }

  lemma CardOneDrawnFront()
    ensures Fields([83, 86, 6, 31]) == " 83 86  6 31"
  {
    FieldSmall(83); FieldSmall(86); FieldSmall(6); FieldSmall(31);
  }

  /** The source's example of card 1 parses to its number and both lists, in order. */
  lemma ParsesCardOne(line: string)
    requires line == "Card 1: 41 48 83 86 17 |" + " 83 86  6 31 17  9 48 53"
    ensures NameIndexable(line)
    ensures NewCard(line) == Ok(Card("Card 1", 1, [41, 48, 83, 86, 17], [83, 86, 6, 31, 17, 9, 48, 53]))
  {
    var winning, numbers := [41, 48, 83, 86, 17], [83, 86, 6, 31, 17, 9, 48, 53];
    ParseCardText("Card", 1, winning, numbers);
    CardOneName();
    CardOneWinning();
    CardOneDrawn();
    CardOneText("Card" + " " + DecimalString(1), Fields(winning), Fields(numbers));
  }

  /** The pieces of card 1's line, put together. */
  lemma CardOneText(name: string, w: string, n: string)
    requires name == "Card 1" && w == " 41 48 83 86 17" && n == " 83 86  6 31" + " 17  9 48 53"
    ensures name + ":" + (w + " |" + n) == "Card 1: 41 48 83 86 17 |" + " 83 86  6 31 17  9 48 53"
  {
    assert name + ":" + (w + " |") == "Card 1: 41 48 83 86 17 |";
    assert n == " 83 86  6 31 17  9 48 53";
  }

  /** The source's example "Card 22: 17 | 83" parses to card 22. */
  lemma ParsesCard22(line: string)
    requires line == "Card 22: 17 | 83"
    ensures NameIndexable(line) && NewCard(line) == Ok(Card("Card 22", 22, [17], [83]))
  {
    ParseCardText("Card", 22, [17], [83]);
    Card22Name();
    Card22Text(line, "Card" + " " + DecimalString(22), Fields([17]), Fields([83]));
  }

  /** The pieces of the line of card 22, put together. */
  lemma Card22Text(line: string, name: string, w: string, n: string)
    requires line == "Card 22: 17 | 83" && name == "Card 22" && w == Fields([17]) && n == Fields([83])
    ensures name + ":" + (w + " |" + n) == line
  {
    FieldSmall(17);
    FieldSmall(83);
  }

  /** The name "Card 22" of the source's second example. */
  lemma Card22Name()
    ensures "Card" + " " + DecimalString(22) == "Card 22"
  {
    assert DecimalString(22) == [DigitChar(2)] + [DigitChar(2)];
  }

  /** A card's text from the layouts of its two lists. */
  lemma CardTextOf(name: string, winning: seq<nat>, numbers: seq<nat>, w: string, n: string, line: string)
    requires Fields(winning) == w && Fields(numbers) == n && line == name + ":" + w + " |" + n
    ensures CardText(name, winning, numbers) == line
  {
  }

  /** The source's examples without a ':': the empty line, and card 1 with its ':' left out. */
  lemma RejectsLineWithoutColon(line: string)
    requires line == "" || line == "Card 1 41 48 83 86 17 |" + " 83 86  6 31 17  9 48 53"
    ensures NameIndexable(line) && NewCard(line) == Err(NoNameSeparator)
  {
    if line != "" {
      var winning, numbers := [41, 48, 83, 86, 17], [83, 86, 6, 31, 17, 9, 48, 53];
      CardOneWinning();
      CardOneDrawn();
      FieldsNoSeparator(winning);
      FieldsNoSeparator(numbers);
      CardOneWithoutColon(line, Fields(winning), Fields(numbers));
      SplitNoSeparator(line, ':');
    }
  }

  /** Card 1's line without its ':' is the name followed by the two laid-out lists. */
  lemma CardOneWithoutColon(line: string, w: string, n: string)
    requires line == "Card 1 41 48 83 86 17 |" + " 83 86  6 31 17  9 48 53"
    requires w == " 41 48 83 86 17" && n == " 83 86  6 31" + " 17  9 48 53"
    requires ':' !in w && ':' !in n
    ensures ':' !in line
  {
    assert "Card 1" + w + " |" == "Card 1 41 48 83 86 17 |";
    assert n == " 83 86  6 31 17  9 48 53";
    assert line == "Card 1" + w + " |" + n;
  }

  /** The source's example "Card 1:" has no '|'. */
  lemma RejectsCardWithoutNumbers(line: string)
    requires line == "Card 1:"
    ensures NameIndexable(line) && NewCard(line) == Err(NoNumbersSeparator)
  {
    ParseCardWithoutBar("Card", 1, []);
    CardOneName();
    assert "Card 1" + ":" + Fields([]) == line;
  }

  /** The source's example of card 1 with its '|' left out. */
  lemma RejectsCardWithoutBar(line: string)
    requires line == "Card 1: 41 48 83 86 17" + " 83 86  6 31 17  9 48 53"
    ensures NameIndexable(line) && NewCard(line) == Err(NoNumbersSeparator)
  {
    var winning, numbers := [41, 48, 83, 86, 17], [83, 86, 6, 31, 17, 9, 48, 53];
    ParseCardWithoutBar("Card", 1, winning + numbers);
    CardOneName();
    CardOneWinning();
    CardOneDrawn();
    FieldsAppend(winning, numbers);
    CardOneWithoutBar(line, "Card" + " " + DecimalString(1), Fields(winning), Fields(numbers));
  }

  /** The pieces of card 1's line without its '|', put together. */
  lemma CardOneWithoutBar(line: string, name: string, w: string, n: string)
    requires line == "Card 1: 41 48 83 86 17" + " 83 86  6 31 17  9 48 53"
    requires name == "Card 1" && w == " 41 48 83 86 17" && n == " 83 86  6 31" + " 17  9 48 53"
    ensures name + ":" + (w + n) == line
  {
    assert name + ":" + w == "Card 1: 41 48 83 86 17";
    assert n == " 83 86  6 31 17  9 48 53";
  }

  /** The source's example "Card 1: |" has no winning number. */
  lemma RejectsEmptyWinning(line: string)
    requires line == "Card 1: |"
    ensures NameIndexable(line) && NewCard(line) == Err(NoWinningNumbers)
  {
    ParseCardText("Card", 1, [], []);
    CardOneName();
    CardTextOf("Card 1", [], [], "", "", line);
  }

  /** The source's example "Card 1: 23 |" has no drawn number. */
  lemma RejectsEmptyDrawn(line: string)
    requires line == "Card 1: 23 |"
    ensures NameIndexable(line) && NewCard(line) == Err(NoNumbers)
  {
    ParseCardText("Card", 1, [23], []);
    EmptyDrawnText(line);
  }

  lemma EmptyDrawnText(line: string)
    requires line == "Card 1: 23 |"
    ensures CardText("Card" + " " + DecimalString(1), [23], []) == line
  {
    CardOneName();
    assert Fields([23]) == " 23" by {
      FieldSmall(23);
      assert [23][1..] == [];
    }
    assert line == "Card 1" + ":" + " 23" + " |" + "";
    CardTextOf("Card 1", [23], [], " 23", "", line);
  }

  /** Laying out two lists one after the other is laying out their concatenation. */
  lemma {:induction false} FieldsAppend(a: seq<nat>, b: seq<nat>)
    ensures Fields(a + b) == Fields(a) + Fields(b)
  {
    if |a| == 0 {
      assert a + b == b;
    } else {
      assert (a + b)[0] == a[0] && (a + b)[1..] == a[1..] + b;
      calc {
        Fields(a + b);
        Field(a[0]) + Fields(a[1..] + b);
        { FieldsAppend(a[1..], b); }
        Field(a[0]) + (Fields(a[1..]) + Fields(b));
        Fields(a) + Fields(b);
      }
    }
  }
}
