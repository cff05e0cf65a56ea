/**
 * Gear ratios (2023 day 3): an engine schematic is a grid of text rows.
 * A part number is a maximal run of digits in a row that touches a symbol
 * (any character other than '.' and a digit) in the rows just above or
 * below it or in its own row, one column to either side included.
 *
 * The schematic is ASCII text, so characters and byte positions coincide.
 */
module EngineSchematic {
  import opened Ints
  import opened Text

  /** Anything that is neither '.' nor a digit. */
  predicate IsSymbol(c: char) {
    c != '.' && !IsDigit(c)
  }

  /** First column searched: one left of the number, clamped at 0 (`checked_sub(1).unwrap_or(0)`). */
  function SliceStart(start: nat): nat {
    if start >= 1 then start - 1 else 0
  }

  /** End of the columns searched in a row of length `rowLen`: one right of the number, clamped at the row's end. */
  function SliceEnd(start: nat, length: nat, rowLen: nat): nat {
    if start + length + 1 <= rowLen then start + length + 1 else rowLen
  }

  /** Row `r`, column `c` lies in the window searched around a number of `length` digits at `start` in row `lineNo`. */
  predicate InWindow(grid: seq<string>, lineNo: nat, start: nat, length: nat, r: nat, c: nat) {
    r < |grid| && lineNo <= r + 1 && r <= lineNo + 1 && SliceStart(start) <= c < SliceEnd(start, length, |grid[r]|)
  }

  /** Some symbol lies in the window around the number. */
  ghost predicate AdjacentToSymbol(grid: seq<string>, lineNo: nat, start: nat, length: nat) {
    exists r: nat, c: nat :: InWindow(grid, lineNo, start, length, r, c) && IsSymbol(grid[r][c])
  }

  /**
   * The slice of a window row must be in bounds: a neighbouring row
   * shorter than the first searched column makes the source's slicing
   * panic.
   */
  ghost predicate SliceFits(grid: seq<string>, lineNo: nat, start: nat) {
    forall r: nat :: r < |grid| && lineNo <= r + 1 && r <= lineNo + 1 ==> SliceStart(start) <= |grid[r]|
  }

  /** The row the source searches for `line_offset` 0, 1, 2: one above (clamped at 0), the same, one below. */
  function WindowRow(lineNo: nat, offset: nat): nat {
    if lineNo + offset >= 1 then lineNo + offset - 1 else 0
  }

  /**
   * `is_valid_part_coords`: the three window rows in turn, each one's
   * slice scanned for a symbol, returning as soon as one is found.
   */
  method IsValidPartCoords(grid: seq<string>, lineNo: nat, start: nat, length: nat) returns (valid: bool)
    requires SliceFits(grid, lineNo, start)
    ensures valid <==> AdjacentToSymbol(grid, lineNo, start, length)
  {
    for lineOffset := 0 to 3
      invariant forall off: nat, c: nat ::
        off < lineOffset && InWindow(grid, lineNo, start, length, WindowRow(lineNo, off), c) ==> !IsSymbol(grid[WindowRow(lineNo, off)][c])
    {
      var lineIndex := WindowRow(lineNo, lineOffset);
      if lineIndex < |grid| {
        var currLine := grid[lineIndex];
        var sliceStart := SliceStart(start);
        var sliceEnd := SliceEnd(start, length, |currLine|);
        var slice := currLine[sliceStart..sliceEnd];
        for i := 0 to |slice|
          invariant forall c: nat :: sliceStart <= c < sliceStart + i ==> !IsSymbol(currLine[c])
        {
          if slice[i] != '.' && !IsDigit(slice[i]) {
            assert InWindow(grid, lineNo, start, length, lineIndex, sliceStart + i);
            return true;
          }
        }
      }
    }
    forall r: nat, c: nat | InWindow(grid, lineNo, start, length, r, c)
      ensures !IsSymbol(grid[r][c])
    {
      var off := if r + 1 == lineNo then 0 else if r == lineNo then 1 else 2;
      assert WindowRow(lineNo, off) == r;
    }
    return false;
  }

  /** The end of the run of digits from `i`: the first later position that is not a digit, or the end of the line. */
  function RunEnd(line: string, i: nat): (e: nat)
    requires i <= |line|
    ensures i <= e <= |line|
    ensures forall k :: i <= k < e ==> IsDigit(line[k])
    ensures e < |line| ==> !IsDigit(line[e])
    decreases |line| - i
  {
    if i < |line| && IsDigit(line[i]) then RunEnd(line, i + 1) else i
  }

  /** A run of digits: where it starts and its digits. */
  datatype Run = Run(start: nat, digits: string) {
    /** The position just past the run. */
    function End(): nat { start + |digits| }
  }

  /** The maximal runs of digits at or after position `i`, left to right. */
  function RunsFrom(line: string, i: nat): seq<Run>
    requires i <= |line|
    decreases |line| - i
  {
    if i == |line| then []
    else if !IsDigit(line[i]) then RunsFrom(line, i + 1)
    else
      var e := RunEnd(line, i);
      [Run(i, line[i..e])] + RunsFrom(line, e)
  }

  /** The maximal runs of digits of a row. */
  function Runs(line: string): seq<Run> {
    RunsFrom(line, 0)
  }

  /** No digit lies just before position `i`. */
  predicate AfterNonDigit(line: string, i: nat) {
    i == 0 || i > |line| || !IsDigit(line[i - 1])
  }

  /** Position `i` is not inside a run of digits that began before it. */
  predicate AtBoundary(line: string, i: nat) {
    AfterNonDigit(line, i) || i >= |line| || !IsDigit(line[i])
  }

  /** A run is maximal: digits all through, with no digit just before or just after it. */
  predicate Maximal(line: string, run: Run) {
    && |run.digits| > 0 && run.End() <= |line|
    && run.digits == line[run.start..run.End()]
    && (forall k :: 0 <= k < |run.digits| ==> IsDigit(run.digits[k]))
    && AfterNonDigit(line, run.start)
    && (run.End() == |line| || !IsDigit(line[run.End()]))
  }

  /** From a boundary, every run found is a maximal run of digits. */
  lemma {:induction false} RunsFromMaximal(line: string, i: nat)
    requires i <= |line| && AtBoundary(line, i)
    ensures forall k :: 0 <= k < |RunsFrom(line, i)| ==> i <= RunsFrom(line, i)[k].start && Maximal(line, RunsFrom(line, i)[k])
    decreases |line| - i
  {
    if i < |line| {
      if !IsDigit(line[i]) {
        RunsFromMaximal(line, i + 1);
        assert RunsFrom(line, i) == RunsFrom(line, i + 1);
      } else {
        var e := RunEnd(line, i);
        RunsFromMaximal(line, e);
        var run := Run(i, line[i..e]);
        assert RunsFrom(line, i) == [run] + RunsFrom(line, e);
        assert Maximal(line, run);
      }
    }
  }

  /** The runs found come left to right, with a gap between each two. */
  lemma {:induction false} RunsFromOrdered(line: string, i: nat)
    requires i <= |line| && AtBoundary(line, i)
    ensures forall k :: 0 <= k < |RunsFrom(line, i)| - 1 ==> RunsFrom(line, i)[k].End() < RunsFrom(line, i)[k + 1].start
    decreases |line| - i
  {
    if i < |line| {
      if !IsDigit(line[i]) {
        RunsFromOrdered(line, i + 1);
        assert RunsFrom(line, i) == RunsFrom(line, i + 1);
      } else {
        var e := RunEnd(line, i);
        RunsFromOrdered(line, e);
        RunsFromMaximal(line, e);
        var rest := RunsFrom(line, e);
        assert RunsFrom(line, i) == [Run(i, line[i..e])] + rest;
        assert |rest| > 0 ==> e < rest[0].start;
      }
    }
  }

  /** Every digit from `i` on lies in one of the runs found. */
  lemma {:induction false} RunsFromCover(line: string, i: nat)
    requires i <= |line|
    ensures forall j :: i <= j < |line| && IsDigit(line[j]) ==>
      exists k :: 0 <= k < |RunsFrom(line, i)| && RunsFrom(line, i)[k].start <= j < RunsFrom(line, i)[k].End()
    decreases |line| - i
  {
    if i < |line| {
      if !IsDigit(line[i]) {
        RunsFromCover(line, i + 1);
        assert RunsFrom(line, i) == RunsFrom(line, i + 1);
      } else {
        var e := RunEnd(line, i);
        RunsFromCover(line, e);
        var rest := RunsFrom(line, e);
        var runs := RunsFrom(line, i);
        assert runs == [Run(i, line[i..e])] + rest;
        forall j | i <= j < |line| && IsDigit(line[j])
          ensures exists k :: 0 <= k < |runs| && runs[k].start <= j < runs[k].End()
        {
          if j < e {
            assert runs[0].start <= j < runs[0].End();
          } else {
            var k :| 0 <= k < |rest| && rest[k].start <= j < rest[k].End();
            assert runs[k + 1] == rest[k];
          }
        }
      }
    }
  }

  /** The runs of a row are exactly its maximal runs of digits, in order. */
  lemma RunsExact(line: string)
    ensures forall k :: 0 <= k < |Runs(line)| ==> Maximal(line, Runs(line)[k])
    ensures forall k :: 0 <= k < |Runs(line)| - 1 ==> Runs(line)[k].End() < Runs(line)[k + 1].start
    ensures forall j :: 0 <= j < |line| && IsDigit(line[j]) ==>
      exists k :: 0 <= k < |Runs(line)| && Runs(line)[k].start <= j < Runs(line)[k].End()
  {
    RunsFromMaximal(line, 0);
    RunsFromOrdered(line, 0);
    RunsFromCover(line, 0);
    var runs := Runs(line);
    forall j | 0 <= j < |line| && IsDigit(line[j])
      ensures exists k :: 0 <= k < |runs| && runs[k].start <= j < runs[k].End()
    {
      var k :| 0 <= k < |RunsFrom(line, 0)| && RunsFrom(line, 0)[k].start <= j < RunsFrom(line, 0)[k].End();
      assert runs[k] == RunsFrom(line, 0)[k];
    }
  }

  /** The `fold` of the source: `acc * 10 + digit`, a non-digit counting as 0 (`to_digit(10).unwrap_or(0)`). */
  function FoldDigits(s: string): nat
  {
    if |s| == 0 then 0
    else 10 * FoldDigits(s[..|s| - 1]) + (if IsDigit(s[|s| - 1]) then DigitValue(s[|s| - 1]) else 0)
  }

  /** On digits the fold is the decimal value. */
  lemma {:induction false} FoldDigitsValue(s: string)
    requires forall i :: 0 <= i < |s| ==> IsDigit(s[i])
    ensures FoldDigits(s) == DecimalValue(s)
  {
    if |s| > 0 {
      FoldDigitsValue(s[..|s| - 1]);
    }
  }

  /** What the run of digits `digits` at `start` of row `lineNo` adds: its value if it touches a symbol, else nothing. */
  ghost function PartOf(grid: seq<string>, lineNo: nat, start: nat, digits: string): seq<nat> {
    if AdjacentToSymbol(grid, lineNo, start, |digits|) then [FoldDigits(digits)] else []
  }

  /** The part numbers among `runs` of row `lineNo`: the value of each run next to a symbol, in order. */
  ghost function PartsOfRuns(grid: seq<string>, lineNo: nat, runs: seq<Run>): seq<nat> {
    if |runs| == 0 then []
    else PartOf(grid, lineNo, runs[0].start, runs[0].digits) + PartsOfRuns(grid, lineNo, runs[1..])
  }

  /** The part numbers of the first `n` rows, row by row. */
  ghost function PartNumbersUpTo(grid: seq<string>, n: nat): seq<nat>
    requires n <= |grid|
  {
    if n == 0 then [] else PartNumbersUpTo(grid, n - 1) + PartsOfRuns(grid, n - 1, Runs(grid[n - 1]))
  }

  /** Every part number of the schematic, in row-then-column order. */
  ghost function PartNumbers(grid: seq<string>): seq<nat> {
    PartNumbersUpTo(grid, |grid|)
  }

  /** A run of digits starts at `p`. */
  predicate RunStart(line: string, p: nat) {
    p < |line| && IsDigit(line[p]) && AfterNonDigit(line, p)
  }

  /**
   * What `get_valid_parts` needs to run without a panic: every run's
   * window can be sliced, and every part number fits the `u32` the fold
   * computes in.
   */
  ghost predicate Scannable(grid: seq<string>) {
    forall lineNo: nat, p: nat :: lineNo < |grid| && RunStart(grid[lineNo], p) ==>
      && SliceFits(grid, lineNo, p)
      && (AdjacentToSymbol(grid, lineNo, p, RunEnd(grid[lineNo], p) - p)
          ==> FoldDigits(grid[lineNo][p..RunEnd(grid[lineNo], p)]) <= U32Max)
  }

  /** The digits from `p` run up to `i`, where they stop. */
  lemma {:induction false} RunEndAt(line: string, p: nat, i: nat)
    requires p < i <= |line|
    requires forall k :: p <= k < i ==> IsDigit(line[k])
    requires i == |line| || !IsDigit(line[i])
    ensures RunEnd(line, p) == i
    decreases i - p
  {
    if p + 1 < i {
      RunEndAt(line, p + 1, i);
    }
  }

  /**
   * The part numbers from position `p` of row `lineNo` on, found run by
   * run; `p` may lie past the end of the row.
   */
  ghost function PartsAfter(grid: seq<string>, lineNo: nat, p: nat): seq<nat>
    requires lineNo < |grid|
    decreases |grid[lineNo]| - p
  {
    var line := grid[lineNo];
    if p >= |line| then []
    else if !IsDigit(line[p]) then PartsAfter(grid, lineNo, p + 1)
    else
      var e := RunEnd(line, p);
      PartOf(grid, lineNo, p, line[p..e]) + PartsAfter(grid, lineNo, e)
  }

  /** Run by run from `p`, the parts are those of the runs from `p`. */
  lemma {:induction false} PartsAfterRuns(grid: seq<string>, lineNo: nat, p: nat)
    requires lineNo < |grid| && p <= |grid[lineNo]|
    ensures PartsAfter(grid, lineNo, p) == PartsOfRuns(grid, lineNo, RunsFrom(grid[lineNo], p))
    decreases |grid[lineNo]| - p
  {
    var line := grid[lineNo];
    if p < |line| {
      if !IsDigit(line[p]) {
        PartsAfterRuns(grid, lineNo, p + 1);
      } else {
        var e := RunEnd(line, p);
        PartsAfterRuns(grid, lineNo, e);
        var runs := RunsFrom(line, p);
        assert runs[1..] == RunsFrom(line, e);
      }
    }
  }

  /** Past a position that is no digit, no run begins there. */
  lemma PartsSkip(grid: seq<string>, lineNo: nat, i: nat)
    requires lineNo < |grid| && i <= |grid[lineNo]|
    requires i == |grid[lineNo]| || !IsDigit(grid[lineNo][i])
    ensures PartsAfter(grid, lineNo, i) == PartsAfter(grid, lineNo, i + 1)
  {
  }

  /** A run that ends at `i` contributes its part, and the rest follows after `i`. */
  lemma PartsFlush(grid: seq<string>, lineNo: nat, p: nat, i: nat)
    requires lineNo < |grid| && p < i <= |grid[lineNo]|
    requires forall k :: p <= k < i ==> IsDigit(grid[lineNo][k])
    requires i == |grid[lineNo]| || !IsDigit(grid[lineNo][i])
    ensures RunEnd(grid[lineNo], p) == i
    ensures PartsAfter(grid, lineNo, p) == PartOf(grid, lineNo, p, grid[lineNo][p..i]) + PartsAfter(grid, lineNo, i + 1)
  {
    RunEndAt(grid[lineNo], p, i);
    PartsSkip(grid, lineNo, i);
  }

  /** The flush of a nonempty pocket: its number, when `is_valid_part_coords` accepts its place. */
  method FlushPocket(input: seq<string>, lineNo: nat, start: nat, pocket: string) returns (part: seq<nat>)
    requires SliceFits(input, lineNo, start)
    ensures part == PartOf(input, lineNo, start, pocket)
  {
    var valid := IsValidPartCoords(input, lineNo, start, |pocket|);
    if valid {
      var partNo := FoldDigits(pocket);
      part := [partNo];
    } else {
      part := [];
    }
  }

  /**
   * One row of `get_valid_parts`: the row read character by character
   * with a '.' read past its end, digits gathered in a pocket; a non-digit
   * flushes the pocket.
   */
  method RowParts(input: seq<string>, lineNo: nat) returns (parts: seq<nat>)
    requires lineNo < |input| && Scannable(input)
    ensures parts == PartsOfRuns(input, lineNo, Runs(input[lineNo]))
  {
    var line := input[lineNo];
    parts := [];
    var charIndex := 0;
    var pocket: string := [];
    ghost var p: nat := 0;
    while charIndex <= |line|
      invariant p <= charIndex <= |line| + 1 && |pocket| == charIndex - p
      invariant charIndex <= |line| ==> pocket == line[p..charIndex]
      invariant charIndex == |line| + 1 ==> pocket == []
      invariant AfterNonDigit(line, p)
      invariant forall k :: p <= k < charIndex ==> k < |line| && IsDigit(line[k])
      invariant parts + PartsAfter(input, lineNo, p) == PartsAfter(input, lineNo, 0)
      decreases |line| + 1 - charIndex
    {
      var currChar := if charIndex < |line| then line[charIndex] else '.';
      if IsDigit(currChar) {
        pocket := pocket + [currChar];
      } else {
        if |pocket| > 0 {
          var start := charIndex - |pocket|;
          PartsFlush(input, lineNo, p, charIndex);
          assert RunStart(line, p);
          var part := FlushPocket(input, lineNo, start, pocket);
          Regroup(parts, part, PartsAfter(input, lineNo, charIndex + 1));
          parts := parts + part;
          pocket := [];
        } else {
          PartsSkip(input, lineNo, charIndex);
        }
        p := charIndex + 1;
      }
      charIndex := charIndex + 1;
    }
    PartsAfterRuns(input, lineNo, 0);
  }

  /** `get_valid_parts`: the part numbers of every row, in order. */
  method GetValidParts(input: seq<string>) returns (result: seq<nat>)
    requires Scannable(input)
    ensures result == PartNumbers(input)
  {
    result := [];
    for lineNo := 0 to |input|
      invariant result == PartNumbersUpTo(input, lineNo)
    {
      var lineResult := RowParts(input, lineNo);
      result := result + lineResult;
    }
  }
}
