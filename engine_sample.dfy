/**
 * The sample schematics of the gear-ratio puzzle, worked through the
 * engine-schematic model: the window checks on the first grid and the
 * part numbers of the second, which sum to 4361.
 */
module EngineSample {
  import opened Ints
  import opened Text
  import opened EngineSchematic

  /** The grid the window checks are made on. */
  const CoordsGrid: seq<string> := [
    "467..114..",
    "...*......",
    "..35..633.",
    "......#...",
    "617*.....@",
    ".....+.666",
    "..592.....",
    "......755.",
    "...$.*....",
    ".664.598.."
  ]

  /** The grid whose part numbers are summed; rows 4 and 5 differ from `CoordsGrid`. */
  const PartsGrid: seq<string> := [
    "467..114..",
    "...*......",
    "..35..633.",
    "......#...",
    "617*......",
    ".....+.58.",
    "..592.....",
    "......755.",
    "...$.*....",
    ".664.598.."
  ]

  /** A symbol in the window makes a number adjacent. */
  lemma SymbolAt(grid: seq<string>, lineNo: nat, start: nat, length: nat, r: nat, c: nat)
    requires InWindow(grid, lineNo, start, length, r, c) && IsSymbol(grid[r][c])
    ensures AdjacentToSymbol(grid, lineNo, start, length)
  {
  }

  /** The window of a number in a grid of rows of equal width `w` never starts past a row. */
  lemma SliceFitsEven(grid: seq<string>, w: nat, lineNo: nat, start: nat)
    requires start <= w && forall r :: 0 <= r < |grid| ==> |grid[r]| == w
    ensures SliceFits(grid, lineNo, start)
  {
  }

  /** Past a stretch of non-digits, the parts to come are unchanged. */
  lemma {:induction false} PartsSkipAll(grid: seq<string>, lineNo: nat, i: nat, j: nat)
    requires lineNo < |grid| && i <= j <= |grid[lineNo]|
    requires forall k :: i <= k < j ==> !IsDigit(grid[lineNo][k])
    ensures PartsAfter(grid, lineNo, i) == PartsAfter(grid, lineNo, j)
    decreases j - i
  {
    if i < j {
      PartsSkip(grid, lineNo, i);
      PartsSkipAll(grid, lineNo, i + 1, j);
    }
  }

  /** The fold of two digits. */
  lemma FoldTwo(s: string)
    requires |s| == 2 && IsDigit(s[0]) && IsDigit(s[1])
    ensures FoldDigits(s) == 10 * DigitValue(s[0]) + DigitValue(s[1])
  {
    var t := s[..1];
    assert t[..0] == [] && t[0] == s[0];
    assert FoldDigits(t) == DigitValue(s[0]);
    assert s[..|s| - 1] == t;
  }

  /** The fold of three digits. */
  lemma FoldThree(s: string)
    requires |s| == 3 && IsDigit(s[0]) && IsDigit(s[1]) && IsDigit(s[2])
    ensures FoldDigits(s) == 100 * DigitValue(s[0]) + 10 * DigitValue(s[1]) + DigitValue(s[2])
  {
    FoldTwo(s[..2]);
    assert s[..|s| - 1] == s[..2];
  }

  /** The window checks of the source's test: (0, 0, 3) and (2, 2, 2) touch '*', (5, 7, 3) touches '@', (0, 5, 3) touches nothing. */
  lemma CoordsExamples()
    ensures AdjacentToSymbol(CoordsGrid, 0, 0, 3)
    ensures !AdjacentToSymbol(CoordsGrid, 0, 5, 3)
    ensures AdjacentToSymbol(CoordsGrid, 2, 2, 2)
    ensures AdjacentToSymbol(CoordsGrid, 5, 7, 3)
  {
    var g := CoordsGrid;
    SymbolAt(g, 0, 0, 3, 1, 3);
    SymbolAt(g, 2, 2, 2, 1, 3);
    SymbolAt(g, 5, 7, 3, 4, 9);
    forall r: nat, c: nat | InWindow(g, 0, 5, 3, r, c)
      ensures !IsSymbol(g[r][c])
    {
      assert r == 0 || r == 1;
      assert c == 4 || c == 5 || c == 6 || c == 7 || c == 8;
    }
  }

  /** `is_valid_part_coords` on the test's four numbers. */
  method CheckCoords() returns (first: bool, second: bool, third: bool, fourth: bool)
    ensures first && !second && third && fourth
  {
    CoordsExamples();
    SliceFitsEven(CoordsGrid, 10, 0, 0);
    SliceFitsEven(CoordsGrid, 10, 0, 5);
    SliceFitsEven(CoordsGrid, 10, 2, 2);
    SliceFitsEven(CoordsGrid, 10, 5, 7);
    first := IsValidPartCoords(CoordsGrid, 0, 0, 3);
    second := IsValidPartCoords(CoordsGrid, 0, 5, 3);
    third := IsValidPartCoords(CoordsGrid, 2, 2, 2);
    fourth := IsValidPartCoords(CoordsGrid, 5, 7, 3);
  }

  /** 114, in row 0, touches nothing. */
  lemma Lone114()
    ensures !AdjacentToSymbol(PartsGrid, 0, 5, 3)
  {
    var g := PartsGrid;
    forall r: nat, c: nat | InWindow(g, 0, 5, 3, r, c)
      ensures !IsSymbol(g[r][c])
    {
      assert r == 0 || r == 1;
      assert c == 4 || c == 5 || c == 6 || c == 7 || c == 8;
    }
  }

  /** The end of row 0: 114 touches nothing. */
  lemma PartsRow0From4()
    ensures PartsAfter(PartsGrid, 0, 4) == []
  {
    var g := PartsGrid;
    PartsSkipAll(g, 0, 4, 5);
    PartsFlush(g, 0, 5, 8);
    PartsSkipAll(g, 0, 9, 10);
    Lone114();
  }

  /** Row 0: 467 touches the '*' below it, then nothing more. */
  lemma PartsRow0()
    ensures PartsAfter(PartsGrid, 0, 0) == [467]
  {
    var g := PartsGrid;
    PartsFlush(g, 0, 0, 3);
    SymbolAt(g, 0, 0, 3, 1, 3);
    FoldThree(g[0][0..3]);
    PartsRow0From4();
  }

  /** The end of row 2: 633 touches the '#' below it. */
  lemma PartsRow2From5()
    ensures PartsAfter(PartsGrid, 2, 5) == [633]
  {
    var g := PartsGrid;
    PartsSkipAll(g, 2, 5, 6);
    PartsFlush(g, 2, 6, 9);
    SymbolAt(g, 2, 6, 3, 3, 6);
    FoldThree(g[2][6..9]);
  }

  /** Row 2: 35 touches the '*' above it, then 633. */
  lemma PartsRow2()
    ensures PartsAfter(PartsGrid, 2, 0) == [35, 633]
  {
    var g := PartsGrid;
    PartsSkipAll(g, 2, 0, 2);
    PartsFlush(g, 2, 2, 4);
    SymbolAt(g, 2, 2, 2, 1, 3);
    FoldTwo(g[2][2..4]);
    PartsRow2From5();
  }

  /** Row 4: 617 touches the '*' beside it. */
  lemma PartsRow4()
    ensures PartsAfter(PartsGrid, 4, 0) == [617]
  {
    var g := PartsGrid;
    PartsFlush(g, 4, 0, 3);
    PartsSkipAll(g, 4, 4, 10);
    SymbolAt(g, 4, 0, 3, 4, 3);
    FoldThree(g[4][0..3]);
  }

  /** Row 5: 58 touches nothing. */
  lemma PartsRow5()
    ensures PartsAfter(PartsGrid, 5, 0) == []
  {
    var g := PartsGrid;
    PartsSkipAll(g, 5, 0, 7);
    PartsFlush(g, 5, 7, 9);
    forall r: nat, c: nat | InWindow(g, 5, 7, 2, r, c)
      ensures !IsSymbol(g[r][c])
    {
      assert r == 4 || r == 5 || r == 6;
      assert c == 6 || c == 7 || c == 8 || c == 9;
    }
  }

  /** Row 6: 592 touches the '+' above it. */
  lemma PartsRow6()
    ensures PartsAfter(PartsGrid, 6, 0) == [592]
  {
    var g := PartsGrid;
    PartsSkipAll(g, 6, 0, 2);
    PartsFlush(g, 6, 2, 5);
    PartsSkipAll(g, 6, 6, 10);
    SymbolAt(g, 6, 2, 3, 5, 5);
    FoldThree(g[6][2..5]);
  }

  /** Row 7: 755 touches the '*' below it. */
  lemma PartsRow7()
    ensures PartsAfter(PartsGrid, 7, 0) == [755]
  {
    var g := PartsGrid;
    PartsSkipAll(g, 7, 0, 6);
    PartsFlush(g, 7, 6, 9);
    SymbolAt(g, 7, 6, 3, 8, 5);
    FoldThree(g[7][6..9]);
  }

  /** The end of row 9: 598 touches the '*' above it. */
  lemma PartsRow9From5()
    ensures PartsAfter(PartsGrid, 9, 5) == [598]
  {
    var g := PartsGrid;
    PartsFlush(g, 9, 5, 8);
    PartsSkipAll(g, 9, 9, 10);
    SymbolAt(g, 9, 5, 3, 8, 5);
    FoldThree(g[9][5..8]);
  }

  /** Row 9: 664 touches the '$' above it, then 598. */
  lemma PartsRow9()
    ensures PartsAfter(PartsGrid, 9, 0) == [664, 598]
  {
    var g := PartsGrid;
    PartsSkipAll(g, 9, 0, 1);
    PartsFlush(g, 9, 1, 4);
    SymbolAt(g, 9, 1, 3, 8, 3);
    FoldThree(g[9][1..4]);
    PartsRow9From5();
  }

  /** Rows 1, 3 and 8 hold no digit. */
  lemma PartsBlankRows()
    ensures PartsAfter(PartsGrid, 1, 0) == [] && PartsAfter(PartsGrid, 3, 0) == [] && PartsAfter(PartsGrid, 8, 0) == []
  {
    var g := PartsGrid;
    PartsSkipAll(g, 1, 0, 10);
    PartsSkipAll(g, 3, 0, 10);
    PartsSkipAll(g, 8, 0, 10);
  }

  /** The rows' part lists laid end to end. */
  function Concat(rows: seq<seq<nat>>): seq<nat> {
    if |rows| == 0 then [] else Concat(rows[..|rows| - 1]) + rows[|rows| - 1]
  }

  /** When each row's parts are known, the grid's part numbers are those lists laid end to end. */
  lemma {:induction false} PartNumbersByRows(grid: seq<string>, rows: seq<seq<nat>>, n: nat)
    requires n <= |grid| == |rows|
    requires forall r :: 0 <= r < |grid| ==> PartsAfter(grid, r, 0) == rows[r]
    ensures PartNumbersUpTo(grid, n) == Concat(rows[..n])
  {
    if n > 0 {
      PartNumbersByRows(grid, rows, n - 1);
      PartsAfterRuns(grid, n - 1, 0);
      assert rows[..n][..n - 1] == rows[..n - 1];
    }
  }

  /** The sample's rows, as lists of part numbers. */
  const SampleRowParts: seq<seq<nat>> := [[467], [], [35, 633], [], [617], [], [592], [755], [], [664, 598]]

  lemma SampleConcat()
    ensures Concat(SampleRowParts) == [467, 35, 633, 617, 592, 755, 664, 598]
  {
    var rows := SampleRowParts;
    var none: seq<seq<nat>> := rows[..1][..0];
    assert none == [];
    assert Concat(rows[..1]) == [467];
    assert Concat(rows[..2]) == [467] by { assert rows[..2][..1] == rows[..1]; }
    assert Concat(rows[..3]) == [467, 35, 633] by { assert rows[..3][..2] == rows[..2]; }
    assert Concat(rows[..4]) == [467, 35, 633] by { assert rows[..4][..3] == rows[..3]; }
    assert Concat(rows[..5]) == [467, 35, 633, 617] by { assert rows[..5][..4] == rows[..4]; }
    assert Concat(rows[..6]) == [467, 35, 633, 617] by { assert rows[..6][..5] == rows[..5]; }
    assert Concat(rows[..7]) == [467, 35, 633, 617, 592] by { assert rows[..7][..6] == rows[..6]; }
    assert Concat(rows[..8]) == [467, 35, 633, 617, 592, 755] by { assert rows[..8][..7] == rows[..7]; }
    assert Concat(rows[..9]) == [467, 35, 633, 617, 592, 755] by { assert rows[..9][..8] == rows[..8]; }
    assert rows[..10] == rows;
  }

  /** Each row's part numbers in the sample. */
  lemma SampleRowsKnown()
    ensures forall r :: 0 <= r < |PartsGrid| ==> PartsAfter(PartsGrid, r, 0) == SampleRowParts[r]
  {
    var g := PartsGrid;
    var rows := SampleRowParts;
    PartsRow0();
    PartsBlankRows();
    PartsRow2();
    PartsRow4();
    PartsRow5();
    PartsRow6();
    PartsRow7();
    PartsRow9();
    forall r | 0 <= r < |g|
      ensures PartsAfter(g, r, 0) == rows[r]
    {
      assert r == 0 || r == 1 || r == 2 || r == 3 || r == 4 || r == 5 || r == 6 || r == 7 || r == 8 || r == 9;
    }
  }

  /** The part numbers of the sample, row by row. */
  lemma SamplePartNumbers()
    ensures PartNumbers(PartsGrid) == [467, 35, 633, 617, 592, 755, 664, 598]
  {
    var g := PartsGrid;
    var rows := SampleRowParts;
    SampleRowsKnown();
    PartNumbersByRows(g, rows, |g|);
    assert rows[..|g|] == rows;
    SampleConcat();
  }

  function Pow10(n: nat): nat {
    if n == 0 then 1 else 10 * Pow10(n - 1)
  }

  /** A fold of `n` digits stays below 10^n. */
  lemma {:induction false} FoldBelow(s: string)
    ensures FoldDigits(s) < Pow10(|s|)
  {
    if |s| > 0 {
      FoldBelow(s[..|s| - 1]);
    }
  }

  lemma {:induction false} Pow10Grows(m: nat, n: nat)
    requires m <= n
    ensures Pow10(m) <= Pow10(n)
    decreases n
  {
    if m < n {
      Pow10Grows(m, n - 1);
    }
  }

  /** In a row of ten ending in '.', a run has at most nine digits, so its value fits in `u32`. */
  lemma ShortRun(line: string, p: nat)
    requires |line| == 10 && line[9] == '.' && RunStart(line, p)
    ensures FoldDigits(line[p..RunEnd(line, p)]) <= U32Max
  {
    var e := RunEnd(line, p);
    FoldBelow(line[p..e]);
    Pow10Grows(e - p, 9);
    assert Pow10(9) == 1000000000;
  }

  /** Every row of the sample is ten wide and ends in '.'. */
  lemma SampleRows()
    ensures forall r :: 0 <= r < |PartsGrid| ==> |PartsGrid[r]| == 10 && PartsGrid[r][9] == '.'
  {
  }

  /** The sample can be scanned without a panic or an overflow. */
  lemma SampleScannable()
    ensures Scannable(PartsGrid)
  {
    var g := PartsGrid;
    SampleRows();
    forall lineNo: nat, p: nat | lineNo < |g| && RunStart(g[lineNo], p)
      ensures SliceFits(g, lineNo, p)
      ensures AdjacentToSymbol(g, lineNo, p, RunEnd(g[lineNo], p) - p) ==> FoldDigits(g[lineNo][p..RunEnd(g[lineNo], p)]) <= U32Max
    {
      SliceFitsEven(g, 10, lineNo, p);
      ShortRun(g[lineNo], p);
    }
  }

  function Sum(xs: seq<nat>): nat {
    if |xs| == 0 then 0 else xs[0] + Sum(xs[1..])
  }

  /** The sample's part numbers sum to 4361. */
  lemma SampleSum()
    ensures Sum([467, 35, 633, 617, 592, 755, 664, 598]) == 4361
  {
    var xs := [467, 35, 633, 617, 592, 755, 664, 598];
    assert xs[1..][1..][1..][1..][1..][1..][1..][1..] == [];
  }

  /** `get_valid_parts` on the sample: eight part numbers, summing to 4361. */
  method SampleParts() returns (parts: seq<nat>)
    ensures parts == [467, 35, 633, 617, 592, 755, 664, 598]
    ensures Sum(parts) == 4361
  {
    SampleScannable();
    SamplePartNumbers();
    parts := GetValidParts(PartsGrid);
    SampleSum();
  }
}
