/**
 * The word search (2024 day 4): a grid of text lines is searched for a
 * word left to right, right to left, top to bottom and bottom to top.
 * Occurrences are counted the way Rust's `str::matches` counts them:
 * scanning left to right, each match resuming after the previous one.
 * Diagonals are never searched.
 */
module WordSearching {
  import opened Wrappers
  import opened Ints

  /**
   * `count_word_occurences_in_line`: the number of non-overlapping matches
   * of `word` in `line`, leftmost first. The empty word matches at every
   * position, end included. The count is zero exactly when the word
   * appears nowhere in the line.
   */
  function CountInLine(line: string, word: string): (n: nat)
    ensures n == 0 <==> !Occurs(line, word)
    decreases |line|
  {
    if |word| == 0 then
      assert MatchAt(line, word, 0);
      |line| + 1
    else if |line| < |word| then 0
    else if line[..|word|] == word then
      assert MatchAt(line, word, 0);
      1 + CountInLine(line[|word|..], word)
    else
      OccursShift(line, word);
      CountInLine(line[1..], word)
  }

  /** Matches do not overlap: together they take no more room than the line. */
  lemma {:induction false} CountBound(line: string, word: string)
    requires |word| > 0
    ensures CountInLine(line, word) * |word| <= |line|
    decreases |line|
  {
    if |line| < |word| {
    } else if line[..|word|] == word {
      var rest, k := CountInLine(line[|word|..], word), |word|;
      CountBound(line[k..], word);
      assert CountInLine(line, word) == 1 + rest;
      assert rest * k <= |line| - k;
      MulSucc(rest, k);
    } else {
      CountBound(line[1..], word);
    }
  }

  lemma MulSucc(a: nat, k: nat)
    ensures (1 + a) * k == k + a * k
  {
  }

  /** `word` appears somewhere in `line`. */
  predicate Occurs(line: string, word: string) {
    exists i :: 0 <= i <= |line| && MatchAt(line, word, i)
  }

  /** `word` appears in `line` starting at position `i`. */
  predicate MatchAt(line: string, word: string, i: nat) {
    i + |word| <= |line| && line[i..i + |word|] == word
  }

  /** Without a match at the front, the word occurs in the line exactly when it occurs after the first character. */
  lemma OccursShift(line: string, word: string)
    requires |word| > 0 && |word| <= |line| && line[..|word|] != word
    ensures Occurs(line, word) <==> Occurs(line[1..], word)
  {
    var tail := line[1..];
    if Occurs(line, word) {
      var i :| 0 <= i <= |line| && MatchAt(line, word, i);
      assert i != 0;
      assert tail[i - 1..i - 1 + |word|] == line[i..i + |word|];
      assert MatchAt(tail, word, i - 1);
    }
    if Occurs(tail, word) {
      var j :| 0 <= j <= |tail| && MatchAt(tail, word, j);
      assert line[j + 1..j + 1 + |word|] == tail[j..j + |word|];
      assert MatchAt(line, word, j + 1);
    }
  }

  /** A match at the front is counted, and the scan resumes after it. */
  lemma CountAfterMatch(word: string, rest: string)
    requires |word| > 0
    ensures CountInLine(word + rest, word) == 1 + CountInLine(rest, word)
  {
    assert (word + rest)[..|word|] == word;
    assert (word + rest)[|word|..] == rest;
  }

  /** A character that cannot start a match is skipped. */
  lemma CountSkipChar(c: char, rest: string, word: string)
    requires |word| > 0 && word[0] != c
    ensures CountInLine([c] + rest, word) == CountInLine(rest, word)
  {
    assert ([c] + rest)[1..] == rest;
    if |[c] + rest| >= |word| {
      assert ([c] + rest)[..|word|][0] == c;
    }
  }

  /** Overlapping matches are not counted twice: "aa" is found once in "aaa". */
  lemma NonOverlapping(line: string, word: string)
    requires line == "aaa" && word == "aa"
    ensures CountInLine(line, word) == 1
  {
    CountAfterMatch(word, "a");
    assert word + "a" == line;
  }

  /** A match followed by a character that cannot start the next one. */
  lemma CountMatchThenSkip(word: string, c: char, rest: string)
    requires |word| > 0 && word[0] != c
    ensures CountInLine(word + [c] + rest, word) == 1 + CountInLine(rest, word)
  {
    CountAfterMatch(word, [c] + rest);
    CountSkipChar(c, rest, word);
    assert word + [c] + rest == word + ([c] + rest);
  }

  /** A word followed by one character that cannot start it, three times over, is counted three times. */
  lemma ThreeRepeats(word: string, c: char, r1: string, r2: string, r3: string)
    requires |word| > 1 && word[0] != c
    requires r1 == word + [c] + [] && r2 == word + [c] + r1 && r3 == word + [c] + r2
    ensures CountInLine(r3, word) == 3
  {
    var e: string := [];
    assert CountInLine(e, word) == 0;
    CountMatchThenSkip(word, c, e);
    assert word + [c] + [] == word + [c] + e;
    CountMatchThenSkip(word, c, r1);
    CountMatchThenSkip(word, c, r2);
  }

  /** The line of the source's test: three matches, one per repetition. */
  lemma ThreeInLine(line: string, word: string)
    requires line == "testxtestxtestx" && word == "test"
    ensures CountInLine(line, word) == 3
  {
    var r1 := word + ['x'] + [];
    var r2 := word + ['x'] + r1;
    var r3 := word + ['x'] + r2;
    assert r3 == line;
    ThreeRepeats(word, 'x', r1, r2, r3);
  }

  /**
   * `count_word_occurences_in_lines`, as a value: the per-line counts added
   * up. No line counts more than the total, and the total is zero exactly
   * when every line counts zero, that is, when the word appears in none of
   * them.
   */
  function CountInLines(lines: seq<string>, word: string): (n: nat)
    ensures forall i :: 0 <= i < |lines| ==> CountInLine(lines[i], word) <= n
    ensures n == 0 <==> forall i :: 0 <= i < |lines| ==> CountInLine(lines[i], word) == 0
  {
    if |lines| == 0 then 0
    else CountInLines(lines[..|lines| - 1], word) + CountInLine(lines[|lines| - 1], word)
  }

  /** One more line of a prefix adds that line's count, and no prefix counts more than all the lines. */
  lemma CountInLinesPrefix(lines: seq<string>, i: nat, word: string)
    requires i < |lines|
    ensures CountInLines(lines[..i + 1], word) == CountInLines(lines[..i], word) + CountInLine(lines[i], word)
    ensures CountInLines(lines[..i + 1], word) <= CountInLines(lines, word)
  {
    assert lines[..i + 1][..i] == lines[..i];
    CountInLinesConcat(lines[..i + 1], lines[i + 1..], word);
    assert lines[..i + 1] + lines[i + 1..] == lines;
  }

  /** Counting over two blocks of lines is counting over each block. */
  lemma {:induction false} CountInLinesConcat(a: seq<string>, b: seq<string>, word: string)
    ensures CountInLines(a + b, word) == CountInLines(a, word) + CountInLines(b, word)
    decreases |b|
  {
    if |b| == 0 {
      assert a + b == a;
    } else {
      assert (a + b)[..|a + b| - 1] == a + b[..|b| - 1];
      CountInLinesConcat(a, b[..|b| - 1], word);
    }
  }

  /** A position where the word does not start is skipped. */
  lemma CountSkipNoMatch(line: string, word: string)
    requires |word| > 0 && |line| >= |word| && line[..|word|] != word
    ensures CountInLine(line, word) == CountInLine(line[1..], word)
  {
  }

  /** Counting over three lines. */
  lemma CountInThreeLines(a: string, b: string, c: string, word: string)
    ensures CountInLines([a, b, c], word) == CountInLine(a, word) + CountInLine(b, word) + CountInLine(c, word)
  {
    var lines := [a, b, c];
    assert lines[..2] == [a, b] && [a, b][..1] == [a] && [a][..0] == [];
    assert CountInLines([a], word) == CountInLine(a, word);
    assert CountInLines([a, b], word) == CountInLine(a, word) + CountInLine(b, word);
  }

  /** A skipped character, the word, another skipped character and the word again: two matches. */
  lemma TwoAfterSkips(word: string, c: char, s1: string, s2: string, s3: string, s4: string)
    requires |word| > 0 && word[0] != c
    requires s1 == word + [] && s2 == [c] + s1 && s3 == word + s2 && s4 == [c] + s3
    ensures CountInLine(s4, word) == 2
  {
    var e: string := [];
    assert CountInLine(e, word) == 0;
    CountAfterMatch(word, e);
    assert word + [] == word + e;
    CountSkipChar(c, s1, word);
    CountAfterMatch(word, s2);
    CountSkipChar(c, s3, word);
  }

  /** The word three times in a row: three matches. */
  lemma ThreeInARow(word: string, t1: string, t2: string, t3: string)
    requires |word| > 0
    requires t1 == word + [] && t2 == word + t1 && t3 == word + t2
    ensures CountInLine(t3, word) == 3
  {
    var e: string := [];
    assert CountInLine(e, word) == 0;
    CountAfterMatch(word, e);
    assert word + [] == word + e;
    CountAfterMatch(word, t1);
    CountAfterMatch(word, t2);
  }

  /** A false start that is not a match is skipped one character at a time: one match. */
  lemma OneAfterFalseStart(word: string, c: char, u1: string, u2: string, u3: string, u4: string)
    requires |word| > 1 && word[0] != c && word[1] != word[0]
    requires u1 == word + [] && u2 == [word[1]] + u1 && u3 == [word[0]] + u2 && u4 == [c] + u3
    requires u3[..|word|] != word
    ensures CountInLine(u4, word) == 1
  {
    var e: string := [];
    assert CountInLine(e, word) == 0;
    CountAfterMatch(word, e);
    assert word + [] == word + e;
    CountSkipChar(word[1], u1, word);
    CountSkipNoMatch(u3, word);
    assert u3[1..] == u2;
    CountSkipChar(c, u3, word);
  }

  /** "xtestxtest": two matches. */
  lemma FirstTestLine(line: string, word: string)
    requires line == "xtestxtest" && word == "test"
    ensures CountInLine(line, word) == 2
  {
    var s1 := word + [];
    var s2 := ['x'] + s1;
    var s3 := word + s2;
    var s4 := ['x'] + s3;
    assert s4 == line;
    TwoAfterSkips(word, 'x', s1, s2, s3, s4);
  }

  /** "testtesttest": three matches. */
  lemma SecondTestLine(line: string, word: string)
    requires line == "testtesttest" && word == "test"
    ensures CountInLine(line, word) == 3
  {
    var t1 := word + [];
    var t2 := word + t1;
    var t3 := word + t2;
    assert t3 == line;
    ThreeInARow(word, t1, t2, t3);
  }

  /** "xtetest": one match after a false start. */
  lemma ThirdTestLine(line: string, word: string)
    requires line == "xtetest" && word == "test"
    ensures CountInLine(line, word) == 1
  {
    var u1 := word + [];
    var u2 := [word[1]] + u1;
    var u3 := [word[0]] + u2;
    var u4 := ['x'] + u3;
    assert u3 == "tetest";
    assert u3[..|word|] == "tete";
    assert u4 == line;
    OneAfterFalseStart(word, 'x', u1, u2, u3, u4);
  }

  /** The source's multi-line test: 2 + 3 + 1 matches. */
  lemma SixInLines(lines: seq<string>, word: string)
    requires lines == ["xtestxtest", "testtesttest", "xtetest"] && word == "test"
    ensures CountInLines(lines, word) == 6
  {
    FirstTestLine(lines[0], word);
    SecondTestLine(lines[1], word);
    ThirdTestLine(lines[2], word);
    assert lines == [lines[0], lines[1], lines[2]];
    CountInThreeLines(lines[0], lines[1], lines[2], word);
  }

  /** Lines as long as the word but different from it hold no match. */
  lemma {:induction false} NoneInLines(lines: seq<string>, word: string)
    requires |word| > 0
    requires forall l :: 0 <= l < |lines| ==> |lines[l]| == |word| && lines[l] != word
    ensures CountInLines(lines, word) == 0
  {
    if |lines| > 0 {
      var last := lines[|lines| - 1];
      assert last[..|word|] == last;
      assert CountInLine(last, word) == CountInLine(last[1..], word);
      NoneInLines(lines[..|lines| - 1], word);
    }
  }

  /** `chars().nth(col).unwrap_or(' ')`: the character in column `col`, or a space past the end of the line. */
  function CharAt(line: string, col: nat): char
  {
    if col < |line| then line[col] else ' '
  }

  /** Column `col` read top to bottom, one character per line. */
  function Column(lines: seq<string>, col: nat): (s: string)
    ensures |s| == |lines|
    ensures forall l :: 0 <= l < |lines| ==> s[l] == CharAt(lines[l], col)
  {
    seq(|lines|, l requires 0 <= l < |lines| => CharAt(lines[l], col))
  }

  /**
   * `get_vertical_lines`, as a value: None without lines, otherwise one
   * column per character of the first line.
   */
  function VerticalLines(lines: seq<string>): (r: Option<seq<string>>)
    ensures r.None? <==> |lines| == 0
    ensures r.Some? ==> |r.value| == |lines[0]|
    ensures r.Some? ==> forall c :: 0 <= c < |r.value| ==> r.value[c] == Column(lines, c)
  {
    if |lines| == 0 then None else Some(seq(|lines[0]|, c requires 0 <= c => Column(lines, c)))
  }

  /** A grid whose lines all have the same positive length. */
  predicate Rectangular(lines: seq<string>) {
    |lines| > 0 && |lines[0]| > 0 && forall l :: 0 <= l < |lines| ==> |lines[l]| == |lines[0]|
  }

  /** The columns of a rectangular grid form a rectangular grid, and taking columns again gives the rows back. */
  lemma TransposeTwice(lines: seq<string>)
    requires Rectangular(lines)
    ensures Rectangular(VerticalLines(lines).value)
    ensures VerticalLines(VerticalLines(lines).value) == Some(lines)
  {
    var cols := VerticalLines(lines).value;
    var back := VerticalLines(cols).value;
    assert |back| == |lines|;
    forall l | 0 <= l < |lines|
      ensures back[l] == lines[l]
    {
      assert |back[l]| == |lines[l]|;
      forall c | 0 <= c < |lines[l]|
        ensures back[l][c] == lines[l][c]
      {
        assert back[l][c] == CharAt(cols[c], l);
      }
    }
    assert back == lines;
  }

  /** The source's test on "123", "456", "789": the first column is "147", not the diagonal "159". */
  lemma FirstColumn(lines: seq<string>)
    requires lines == ["123", "456", "789"]
    ensures VerticalLines(lines).Some? && VerticalLines(lines).value[0] == "147"
    ensures VerticalLines(lines).value[0] != "159"
  {
    var col := VerticalLines(lines).value[0];
    assert col == Column(lines, 0);
    assert col[0] == '1' && col[1] == '4' && col[2] == '7';
  }

  /** `chars().rev().collect()`. */
  function Reverse(s: string): (r: string)
    ensures |r| == |s|
    ensures forall i :: 0 <= i < |s| ==> r[i] == s[|s| - 1 - i]
  {
    seq(|s|, i requires 0 <= i < |s| => s[|s| - 1 - i])
  }

  lemma ReverseReverse(s: string)
    ensures Reverse(Reverse(s)) == s
  {
  }

  /**
   * The count over the columns, or zero when there are none to take: zero
   * exactly when the word appears down none of the columns.
   */
  function ColumnCount(lines: seq<string>, word: string): (n: nat)
    ensures |lines| == 0 ==> n == 0
    ensures |lines| > 0 ==> (n == 0 <==> forall c :: 0 <= c < |lines[0]| ==> CountInLine(Column(lines, c), word) == 0)
  {
    match VerticalLines(lines)
    case Some(cols) => CountInLines(cols, word)
    case None => 0
  }

  /** `count_occurences`, as a value: rows both ways plus columns both ways. */
  function Occurrences(text: seq<string>, word: string): (n: nat)
    ensures Reverse(word) == word ==> n == 2 * (CountInLines(text, word) + ColumnCount(text, word))
  {
    CountInLines(text, word) + CountInLines(text, Reverse(word))
      + ColumnCount(text, word) + ColumnCount(text, Reverse(word))
  }

  /** Searching for a word or for its reversal finds the same total. */
  lemma ReversedWordSameTotal(text: seq<string>, word: string)
    ensures Occurrences(text, Reverse(word)) == Occurrences(text, word)
  {
    ReverseReverse(word);
  }

  /** Searching a rectangular grid or its transpose finds the same total: rows and columns swap roles. */
  lemma TransposedSameTotal(text: seq<string>, word: string)
    requires Rectangular(text)
    ensures Occurrences(VerticalLines(text).value, word) == Occurrences(text, word)
  {
    TransposeTwice(text);
  }

  /** A square grid that reads the same down as across is its own transpose. */
  lemma SymmetricTranspose(lines: seq<string>)
    requires |lines| > 0
    requires forall l :: 0 <= l < |lines| ==> |lines[l]| == |lines|
    requires forall l, c :: 0 <= l < |lines| && 0 <= c < |lines| ==> lines[l][c] == lines[c][l]
    ensures VerticalLines(lines) == Some(lines)
  {
    var cols := VerticalLines(lines).value;
    forall c | 0 <= c < |lines| ensures cols[c] == lines[c] {
      assert cols[c] == Column(lines, c);
    }
    assert cols == lines;
  }

  /** The search misses a word written on a diagonal. */
  lemma DiagonalNotFound(text: seq<string>, word: string)
    requires text == ["X...", ".M..", "..A.", "...S"] && word == "XMAS"
    ensures Occurrences(text, word) == 0
  {
    DiagonalSymmetric(text);
    DiagonalRows(text, word, Reverse(word));
  }

  /** The diagonal grid reads the same down as across. */
  lemma DiagonalSymmetric(text: seq<string>)
    requires text == ["X...", ".M..", "..A.", "...S"]
    ensures VerticalLines(text) == Some(text)
  {
    assert forall l, c :: 0 <= l < 4 && 0 <= c < 4 ==> text[l][c] == text[c][l];
    SymmetricTranspose(text);
  }

  /** No row of the diagonal grid holds the word either way. */
  lemma DiagonalRows(text: seq<string>, word: string, drow: string)
    requires text == ["X...", ".M..", "..A.", "...S"] && word == "XMAS" && drow == Reverse(word)
    ensures CountInLines(text, word) == 0 && CountInLines(text, drow) == 0
  {
    assert drow == "SAMX";
    NoneInLines(text, word);
    NoneInLines(text, drow);
  }

  class WordSearch {
    var text: seq<string>
    const wordToFind: string

    /** `WordSearch::new`: no text yet. */
    constructor(word: string)
      ensures text == [] && wordToFind == word
    {
      text := [];
      wordToFind := word;
    }

    /** `text_add_line`: one more line at the bottom of the grid. */
    method TextAddLine(line: string)
      modifies this
      ensures text == old(text) + [line]
    {
      text := text + [line];
    }

    /**
     * `count_word_occurences_in_lines`: the per-line counts added up in a
     * `u32` that must not overflow, so the total must fit; then every
     * partial sum fits as well.
     */
    static method CountWordOccurencesInLines(lines: seq<string>, word: string) returns (count: nat)
      requires CountInLines(lines, word) <= U32Max
      ensures count == CountInLines(lines, word)
    {
      count := 0;
      for i := 0 to |lines|
        invariant count == CountInLines(lines[..i], word)
        invariant count <= U32Max
      {
        CountInLinesPrefix(lines, i, word);
        count := count + CountInLine(lines[i], word);
      }
      assert lines[..|lines|] == lines;
    }

    /** `get_vertical_lines`: the columns built one character at a time. */
    static method GetVerticalLines(lines: seq<string>) returns (r: Option<seq<string>>)
      ensures r == VerticalLines(lines)
    {
      if |lines| == 0 {
        return None;
      }
      var colCount := |lines[0]|;
      var verticalLines: seq<string> := [];
      for col := 0 to colCount
        invariant |verticalLines| == col
        invariant forall c :: 0 <= c < col ==> verticalLines[c] == Column(lines, c)
      {
        var colText: string := "";
        for l := 0 to |lines|
          invariant |colText| == l
          invariant forall k :: 0 <= k < l ==> colText[k] == CharAt(lines[k], col)
        {
          colText := colText + [CharAt(lines[l], col)];
        }
        assert colText == Column(lines, col);
        verticalLines := verticalLines + [colText];
      }
      assert verticalLines == VerticalLines(lines).value;
      return Some(verticalLines);
    }

    /** `count_left_to_right`: the word along the rows. */
    method CountLeftToRight() returns (n: nat)
      requires CountInLines(text, wordToFind) <= U32Max
      ensures n == CountInLines(text, wordToFind)
    {
      n := CountWordOccurencesInLines(text, wordToFind);
    }

    /** `count_right_to_left`: the reversed word along the rows. */
    method CountRightToLeft() returns (n: nat)
      requires CountInLines(text, Reverse(wordToFind)) <= U32Max
      ensures n == CountInLines(text, Reverse(wordToFind))
    {
      var wordReverse := Reverse(wordToFind);
      n := CountWordOccurencesInLines(text, wordReverse);
    }

    /** `count_top_to_bottom`: the word down the columns, zero without text. */
    method CountTopToBottom() returns (n: nat)
      requires ColumnCount(text, wordToFind) <= U32Max
      ensures n == ColumnCount(text, wordToFind)
    {
      var lines := GetVerticalLines(text);
      if lines.Some? {
        n := CountWordOccurencesInLines(lines.value, wordToFind);
      } else {
        n := 0;
      }
    }

    /** `count_bottom_to_top`: the reversed word down the columns, zero without text. */
    method CountBottomToTop() returns (n: nat)
      requires ColumnCount(text, Reverse(wordToFind)) <= U32Max
      ensures n == ColumnCount(text, Reverse(wordToFind))
    {
      var wordReverse := Reverse(wordToFind);
      var lines := GetVerticalLines(text);
      if lines.Some? {
        n := CountWordOccurencesInLines(lines.value, wordReverse);
      } else {
        n := 0;
      }
    }

    /** `count_occurences`: the four directions added up in `u32`, so the total must fit. */
    method CountOccurences() returns (n: nat)
      requires Occurrences(text, wordToFind) <= U32Max
      ensures n == Occurrences(text, wordToFind)
    {
      var a := CountLeftToRight();
      var b := CountRightToLeft();
      var c := CountTopToBottom();
      var d := CountBottomToTop();
      n := a + b + c + d;
    }
  }
}
