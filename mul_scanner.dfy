/**
 * The corrupted-memory scanner (2024 day 3): the instructions
 * `mul(<digits>,<digits>)` are picked out of noisy text, leftmost first,
 * each search resuming after the previous match, and their products are
 * added up. The second version also reads `do()` and `don't()`, keeps only
 * the `mul`s met while enabled, writes them back to back into a new
 * string, and scans that string again.
 *
 * The regular expressions are modelled as scanners over ASCII text; the
 * regex engine's `captures_iter` is the function `ScanMuls` or
 * `ScanInstructions` of the text.
 */
module MulInstructions {
  import opened Wrappers
  import opened Ints
  import opened Text

  datatype MulCreationError = Captures | NumericConverion

  /** The two digit groups of one `mul(<digits>,<digits>)` match. */
  datatype MulMatch = MulMatch(a: string, b: string)

  /** `Mul`: two `u32` factors. */
  datatype Mul = Mul(a: nat, b: nat)

  /** The text of a match. */
  function Render(m: MulMatch): string {
    "mul(" + m.a + "," + m.b + ")"
  }

  /** A match whose groups are the runs of digits the pattern asks for. */
  predicate WellFormed(m: MulMatch) {
    IsDigits(m.a) && IsDigits(m.b)
  }

  /** The length of the run of digits at the start of `s` (the greedy `\d+`, or nothing). */
  function DigitRun(s: string): (n: nat)
    ensures n <= |s|
    ensures forall i :: 0 <= i < n ==> IsDigit(s[i])
    ensures n < |s| ==> !IsDigit(s[n])
  {
    if |s| > 0 && IsDigit(s[0]) then 1 + DigitRun(s[1..]) else 0
  }

  /** The run of digits in front of a non-digit is exactly the digits. */
  lemma {:induction false} DigitRunOf(d: string, c: char, rest: string)
    requires forall i :: 0 <= i < |d| ==> IsDigit(d[i])
    requires !IsDigit(c)
    ensures DigitRun(d + [c] + rest) == |d|
  {
    if |d| > 0 {
      assert (d + [c] + rest)[1..] == d[1..] + [c] + rest;
      DigitRunOf(d[1..], c, rest);
    }
  }

  /** `mul\((\d+),(\d+)\)` tried at the start of `s`: the match and its length. */
  function MulPrefix(s: string): Option<(MulMatch, nat)>
  {
    if |s| >= 4 && s[..4] == "mul(" then
      match MulArguments(s[4..])
      case Some((m, n)) => Some((m, 4 + n))
      case None => None
    else None
  }

  /** `(\d+),(\d+)\)` tried at the start of `r`: the match and its length. */
  function MulArguments(r: string): Option<(MulMatch, nat)>
  {
    var a := DigitRun(r);
    if 0 < a < |r| && r[a] == ',' then
      var t := r[a + 1..];
      var b := DigitRun(t);
      if 0 < b < |t| && t[b] == ')' then Some((MulMatch(r[..a], t[..b]), a + b + 2)) else None
    else None
  }

  /** The arguments found at the start of `r` are runs of digits, and `r` begins with their text. */
  lemma MulArgumentsSound(r: string)
    requires MulArguments(r).Some?
    ensures WellFormed(MulArguments(r).value.0)
    ensures MulArguments(r).value.1 <= |r|
    ensures r[..MulArguments(r).value.1] == MulArguments(r).value.0.a + "," + MulArguments(r).value.0.b + ")"
  {
    var a := DigitRun(r);
    var t := r[a + 1..];
    var b := DigitRun(t);
    assert r[..a + b + 2] == r[..a] + [r[a]] + t[..b] + [t[b]];
  }

  /** A match found at the start of `s` is well formed, and `s` begins with its text. */
  lemma MulPrefixSound(s: string)
    requires MulPrefix(s).Some?
    ensures WellFormed(MulPrefix(s).value.0)
    ensures MulPrefix(s).value.1 == |Render(MulPrefix(s).value.0)| <= |s|
    ensures s[..MulPrefix(s).value.1] == Render(MulPrefix(s).value.0)
  {
    var r := s[4..];
    MulArgumentsSound(r);
    var (m, n) := MulArguments(r).value;
    assert MulPrefix(s) == Some((m, 4 + n));
    assert s[..4 + n] == s[..4] + r[..n];
    assert Render(m) == s[..4] + (m.a + "," + m.b + ")");
  }

  /** Arguments written out in front of any text are found there. */
  lemma MulArgumentsOf(m: MulMatch, rest: string)
    requires WellFormed(m)
    ensures MulArguments(m.a + [','] + (m.b + [')'] + rest)) == Some((m, |m.a| + |m.b| + 2))
  {
    var t := m.b + [')'] + rest;
    var r := m.a + [','] + t;
    DigitRunOf(m.a, ',', t);
    DigitRunOf(m.b, ')', rest);
    assert r[|m.a|] == ',' && r[|m.a| + 1..] == t;
    assert r[..|m.a|] == m.a && t[..|m.b|] == m.b;
    assert t[|m.b|] == ')';
  }

  /** Conversely, text that begins with a well-formed match is matched at its start, whatever follows. */
  lemma MulPrefixOfRender(m: MulMatch, rest: string)
    requires WellFormed(m)
    ensures MulPrefix(Render(m) + rest) == Some((m, |Render(m)|))
  {
    var r := m.a + [','] + (m.b + [')'] + rest);
    RenderThen(m, rest);
    var s := "mul(" + r;
    assert s[..4] == "mul(" && s[4..] == r;
    MulArgumentsOf(m, rest);
  }

  lemma RenderThen(m: MulMatch, rest: string)
    ensures Render(m) + rest == "mul(" + (m.a + [','] + (m.b + [')'] + rest))
    ensures |Render(m)| == |m.a| + |m.b| + 6
  {
  }

  /** `captures_iter` for `mul\((\d+),(\d+)\)`: leftmost matches, each search resuming after the previous one. */
  function ScanMuls(s: string): (ms: seq<MulMatch>)
    ensures forall i :: 0 <= i < |ms| ==> WellFormed(ms[i])
    decreases |s|
  {
    if |s| == 0 then []
    else
      match MulPrefix(s)
      case Some((m, n)) => MulPrefixSound(s); if n > 0 then [m] + ScanMuls(s[n..]) else []
      case None => ScanMuls(s[1..])
  }

  /** A well-formed match at the front is yielded, and the scan resumes after it. */
  lemma ScanAfterMul(m: MulMatch, rest: string)
    requires WellFormed(m)
    ensures ScanMuls(Render(m) + rest) == [m] + ScanMuls(rest)
  {
    var s := Render(m) + rest;
    MulPrefixOfRender(m, rest);
    assert s[|Render(m)|..] == rest;
  }

  /** Text without an 'm' holds no match and is passed over. */
  lemma {:induction false} ScanSkipNoM(j: string, rest: string)
    requires forall i :: 0 <= i < |j| ==> j[i] != 'm'
    ensures ScanMuls(j + rest) == ScanMuls(rest)
  {
    if |j| > 0 {
      var s := j + rest;
      assert MulPrefix(s).None? by {
        if |s| >= 4 {
          assert s[..4][0] != 'm';
        }
      }
      assert s[1..] == j[1..] + rest;
      assert ScanMuls(s) == ScanMuls(s[1..]);
      ScanSkipNoM(j[1..], rest);
    } else {
      assert j + rest == rest;
    }
  }

  /** `mul` followed by something other than '(' starts no match. */
  lemma BadOpenSkipped(c: char, rest: string)
    requires c != '('
    ensures ScanMuls("mul" + [c] + rest) == ScanMuls("ul" + [c] + rest)
  {
    var s := "mul" + [c] + rest;
    assert s[3] == c;
    assert s[1..] == "ul" + [c] + rest;
  }

  /** Arguments closed by something other than ')' are no match. */
  lemma BadCloseArguments(a: string, b: string, c: char, rest: string)
    requires IsDigits(a) && IsDigits(b) && c != ')' && !IsDigit(c)
    ensures MulArguments(a + [','] + (b + [c] + rest)).None?
  {
    var t := b + [c] + rest;
    var r := a + [','] + t;
    DigitRunOf(a, ',', t);
    DigitRunOf(b, c, rest);
    assert r[|a|] == ',' && r[|a| + 1..] == t;
    assert t[|b|] == c;
  }

  /** `mul(<digits>,<digits>` closed by something other than ')' starts no match. */
  lemma BadCloseSkipped(a: string, b: string, c: char, rest: string)
    requires IsDigits(a) && IsDigits(b) && c != ')' && !IsDigit(c)
    ensures MulPrefix("mul(" + (a + [','] + (b + [c] + rest))).None?
  {
    var r := a + [','] + (b + [c] + rest);
    var s := "mul(" + r;
    assert s[..4] == "mul(" && s[4..] == r;
    BadCloseArguments(a, b, c, rest);
  }

  /** The text of several matches written back to back. */
  function RenderAll(ms: seq<MulMatch>): string
  {
    if |ms| == 0 then "" else Render(ms[0]) + RenderAll(ms[1..])
  }

  lemma {:induction false} RenderAllSnoc(ms: seq<MulMatch>, m: MulMatch)
    ensures RenderAll(ms + [m]) == RenderAll(ms) + Render(m)
  {
    if |ms| == 0 {
      assert ms + [m] == [m];
      assert [m][1..] == [];
    } else {
      assert (ms + [m])[1..] == ms[1..] + [m];
      RenderAllSnoc(ms[1..], m);
    }
  }

  /** Scanning matches written back to back gives exactly those matches, in order. */
  lemma {:induction false} ScanRenderAll(ms: seq<MulMatch>)
    requires forall i :: 0 <= i < |ms| ==> WellFormed(ms[i])
    ensures ScanMuls(RenderAll(ms)) == ms
  {
    if |ms| > 0 {
      ScanRenderAll(ms[1..]);
      ScanAfterMul(ms[0], RenderAll(ms[1..]));
    }
  }

  /**
   * `Mul::new_from_cap`: both groups read as `u32`, or `NumericConverion`.
   * The pattern always captures both groups, so `Captures` is never
   * produced.
   */
  function NewFromCap(m: MulMatch): (r: Result<Mul, MulCreationError>)
    ensures r.Err? ==> r.error == NumericConverion
    ensures r.Ok? ==> r.value.a <= U32Max && r.value.b <= U32Max
  {
    match (ParseUnsigned(m.a, U32Max), ParseUnsigned(m.b, U32Max))
    case (Some(a), Some(b)) => Ok(Mul(a, b))
    case _ => Err(NumericConverion)
  }

  /** A well-formed match converts exactly when both numbers fit in `u32`, and then to their values. */
  lemma NewFromCapFits(m: MulMatch)
    requires WellFormed(m)
    ensures NewFromCap(m).Ok? <==> DecimalValue(m.a) <= U32Max && DecimalValue(m.b) <= U32Max
    ensures NewFromCap(m).Ok? ==> NewFromCap(m).value == Mul(DecimalValue(m.a), DecimalValue(m.b))
    ensures NewFromCap(m).Err? ==> NewFromCap(m).error == NumericConverion
  {
    assert m.a[0] != '+' && m.b[0] != '+';
  }

  /** The matches that convert, converted, in order; the others dropped. Every kept factor is a `u32`. */
  function Converted(ms: seq<MulMatch>): (muls: seq<Mul>)
    ensures |muls| <= |ms|
    ensures forall j :: 0 <= j < |muls| ==> muls[j].a <= U32Max && muls[j].b <= U32Max
  {
    if |ms| == 0 then []
    else
      Converted(ms[..|ms| - 1]) + match NewFromCap(ms[|ms| - 1]) case Ok(mul) => [mul] case Err(_) => []
  }

  /** When every number fits, nothing is dropped: each match becomes the product of its own two values. */
  lemma {:induction false} ConvertedAllFit(ms: seq<MulMatch>)
    requires forall i :: 0 <= i < |ms| ==> WellFormed(ms[i]) && DecimalValue(ms[i].a) <= U32Max && DecimalValue(ms[i].b) <= U32Max
    ensures |Converted(ms)| == |ms|
    ensures forall i :: 0 <= i < |ms| ==> WellFormed(ms[i]) && Converted(ms)[i] == Mul(DecimalValue(ms[i].a), DecimalValue(ms[i].b))
  {
    if |ms| > 0 {
      ConvertedAllFit(ms[..|ms| - 1]);
      NewFromCapFits(ms[|ms| - 1]);
    }
  }

  /** `parse_line_to_mul_list`: each match of the text, converted, with the ones that do not convert dropped. */
  method ParseLineToMulList(s: string) returns (result: seq<Mul>)
    ensures result == Converted(ScanMuls(s))
  {
    var caps := ScanMuls(s);
    result := [];
    for i := 0 to |caps|
      invariant result == Converted(caps[..i])
    {
      assert caps[..i + 1][..i] == caps[..i];
      match NewFromCap(caps[i])
      case Ok(mul) =>
        result := result + [mul];
      case Err(_) =>
    }
    assert caps[..|caps|] == caps;
  }

  /** `Mul::calculate`. */
  function Calculate(m: Mul): (p: nat)
    ensures p == 0 <==> m.a == 0 || m.b == 0
    ensures m.a > 0 ==> p >= m.b
    ensures m.b > 0 ==> p >= m.a
  {
    m.a * m.b
  }

  /** The products added up: no single product exceeds the sum. */
  function SumProducts(muls: seq<Mul>): (total: nat)
    ensures forall i :: 0 <= i < |muls| ==> Calculate(muls[i]) <= total
  {
    if |muls| == 0 then 0 else SumProducts(muls[..|muls| - 1]) + Calculate(muls[|muls| - 1])
  }

  lemma {:induction false} SumProductsConcat(a: seq<Mul>, b: seq<Mul>)
    ensures SumProducts(a + b) == SumProducts(a) + SumProducts(b)
    decreases |b|
  {
    if |b| == 0 {
      assert a + b == a;
    } else {
      assert (a + b)[..|a + b| - 1] == a + b[..|b| - 1];
      SumProductsConcat(a, b[..|b| - 1]);
    }
  }

  /**
   * `sum_mul_list_results`: the products added up in `u32`. Each product
   * and each partial sum would panic on overflow, so the total must fit;
   * then every product and every partial sum fits as well.
   */
  method SumMulListResults(muls: seq<Mul>) returns (sum: nat)
    requires SumProducts(muls) <= U32Max
    ensures sum == SumProducts(muls)
  {
    sum := 0;
    for i := 0 to |muls|
      invariant sum == SumProducts(muls[..i])
      invariant sum <= U32Max
    {
      assert muls[..i + 1][..i] == muls[..i];
      SumProductsConcat(muls[..i + 1], muls[i + 1..]);
      assert muls[..i + 1] + muls[i + 1..] == muls;
      var product := Calculate(muls[i]);
      sum := sum + product;
    }
    assert muls[..|muls|] == muls;
  }

  /** What the second pattern matches: a `mul`, `do()` or `don't()`. */
  datatype Instruction = MulInstr(m: MulMatch) | DoInstr | DontInstr

  /** The second pattern tried at the start of `s`: its alternatives in order. */
  function InstructionPrefix(s: string): Option<(Instruction, nat)>
  {
    match MulPrefix(s)
    case Some((m, n)) => Some((MulInstr(m), n))
    case None =>
      if |s| >= 4 && s[..4] == "do()" then Some((DoInstr, 4))
      else if |s| >= 7 && s[..7] == "don't()" then Some((DontInstr, 7))
      else None
  }

  /** `captures_iter` for `(mul\((\d+),(\d+)\)|do\(\)|don't\(\))`. */
  function ScanInstructions(s: string): (insts: seq<Instruction>)
    ensures 4 * |insts| <= |s|
    decreases |s|
  {
    if |s| == 0 then []
    else
      match InstructionPrefix(s)
      case Some((ins, n)) => if n > 0 then [ins] + ScanInstructions(s[n..]) else []
      case None => ScanInstructions(s[1..])
  }

  /** The `mul`s among the instructions, in order. */
  function MulsOf(insts: seq<Instruction>): seq<MulMatch>
  {
    if |insts| == 0 then []
    else (if insts[0].MulInstr? then [insts[0].m] else []) + MulsOf(insts[1..])
  }

  /** The `mul`s met while enabled, starting in the state `enabled`: never more than there are. */
  function Kept(insts: seq<Instruction>, enabled: bool): (kept: seq<MulMatch>)
    ensures |kept| <= |MulsOf(insts)|
  {
    if |insts| == 0 then []
    else
      match insts[0]
      case MulInstr(m) => (if enabled then [m] else []) + Kept(insts[1..], enabled)
      case DoInstr => Kept(insts[1..], true)
      case DontInstr => Kept(insts[1..], false)
  }

  /** Starting in the state `enabled`, what the loop of `parse_line_to_mul_list_v2` does after `insts`. */
  function EnabledAfter(insts: seq<Instruction>, enabled: bool): bool
  {
    if |insts| == 0 then enabled
    else
      match insts[0]
      case MulInstr(_) => EnabledAfter(insts[1..], enabled)
      case DoInstr => EnabledAfter(insts[1..], true)
      case DontInstr => EnabledAfter(insts[1..], false)
  }

  /** Without any `don't()`, every `mul` is kept. */
  lemma {:induction false} KeptWithoutDont(insts: seq<Instruction>)
    requires forall i :: 0 <= i < |insts| ==> !insts[i].DontInstr?
    ensures Kept(insts, true) == MulsOf(insts)
  {
    if |insts| > 0 {
      KeptWithoutDont(insts[1..]);
    }
  }

  /** After a `don't()` with no `do()` behind it, nothing more is kept. */
  lemma {:induction false} KeptAfterDont(insts: seq<Instruction>)
    requires forall i :: 0 <= i < |insts| ==> !insts[i].DoInstr?
    ensures Kept(insts, false) == []
  {
    if |insts| > 0 {
      KeptAfterDont(insts[1..]);
    }
  }

  /** `a` is `b` with some elements left out, the others in their order. */
  predicate IsSubsequence<T(==)>(a: seq<T>, b: seq<T>)
    decreases |b|
  {
    if |a| == 0 then true
    else if |b| == 0 then false
    else (a[0] == b[0] && IsSubsequence(a[1..], b[1..])) || IsSubsequence(a, b[1..])
  }

  /** Kept `mul`s are some of the `mul`s of the text, in their order: a subsequence. */
  lemma {:induction false} KeptIsSubsequence(insts: seq<Instruction>, enabled: bool)
    ensures IsSubsequence(Kept(insts, enabled), MulsOf(insts))
    ensures multiset(Kept(insts, enabled)) <= multiset(MulsOf(insts))
  {
    if |insts| > 0 {
      var next := if insts[0].DoInstr? then true else if insts[0].DontInstr? then false else enabled;
      KeptIsSubsequence(insts[1..], next);
      var rest, all := Kept(insts[1..], next), MulsOf(insts[1..]);
      if insts[0].MulInstr? {
        var m := insts[0].m;
        assert MulsOf(insts) == [m] + all;
        SubsequenceSkip(rest, m, all);
        if enabled {
          assert Kept(insts, enabled) == [m] + rest;
          assert ([m] + rest)[1..] == rest && ([m] + all)[1..] == all;
        } else {
          assert Kept(insts, enabled) == rest;
        }
      } else {
        assert Kept(insts, enabled) == rest && MulsOf(insts) == all;
      }
    }
  }

  /** Leaving one more element out keeps a subsequence. */
  lemma SubsequenceSkip<T>(a: seq<T>, x: T, b: seq<T>)
    requires IsSubsequence(a, b)
    ensures IsSubsequence(a, [x] + b)
  {
    assert ([x] + b)[1..] == b;
  }

  /** Every `mul` scanned by the second pattern is a well-formed match. */
  lemma {:induction false} ScanInstructionsWellFormed(s: string)
    ensures forall i :: 0 <= i < |ScanInstructions(s)| && ScanInstructions(s)[i].MulInstr? ==> WellFormed(ScanInstructions(s)[i].m)
    decreases |s|
  {
    if |s| > 0 {
      match InstructionPrefix(s)
      case Some((ins, n)) =>
        if ins.MulInstr? {
          MulPrefixSound(s);
        }
        ScanInstructionsWellFormed(s[n..]);
        if n > 0 {
          assert ScanInstructions(s) == [ins] + ScanInstructions(s[n..]);
        }
      case None =>
        ScanInstructionsWellFormed(s[1..]);
    }
  }

  /** `do()` and `don't()` contain no 'm'. */
  lemma NoMInDoOrDont(s: string)
    requires InstructionPrefix(s).Some? && !InstructionPrefix(s).value.0.MulInstr?
    ensures InstructionPrefix(s).value.1 <= |s|
    ensures forall i :: 0 <= i < InstructionPrefix(s).value.1 ==> s[i] != 'm'
  {
    var n := InstructionPrefix(s).value.1;
    if n == 4 {
      assert s[..4] == "do()";
      assert forall i :: 0 <= i < 4 ==> s[i] == s[..4][i];
    } else {
      assert s[..7] == "don't()";
      assert forall i :: 0 <= i < 7 ==> s[i] == s[..7][i];
    }
  }

  /** So the second pattern finds the same `mul`s as the first. */
  lemma {:induction false} SameMuls(s: string)
    ensures MulsOf(ScanInstructions(s)) == ScanMuls(s)
    decreases |s|
  {
    if |s| > 0 {
      var p := InstructionPrefix(s);
      if p.None? {
        assert MulPrefix(s).None?;
        SameMuls(s[1..]);
      } else {
        var (ins, n) := p.value;
        if ins.MulInstr? {
          assert MulPrefix(s) == Some((ins.m, n));
          SameMuls(s[n..]);
        } else {
          assert MulPrefix(s).None?;
          NoMInDoOrDont(s);
          SameMuls(s[n..]);
          var word := s[..n];
          assert s == word + s[n..];
          ScanSkipNoM(word, s[n..]);
        }
      }
    }
  }

  /**
   * `parse_line_to_mul_list_v2`: the enabled `mul`s, written back to back
   * and scanned again; the re-scan gives back exactly the enabled matches,
   * in their order.
   */
  method ParseLineToMulListV2(s: string) returns (result: seq<Mul>)
    ensures result == Converted(Kept(ScanInstructions(s), true))
  {
    var insts := ScanInstructions(s);
    ScanInstructionsWellFormed(s);
    var newS: string := "";
    var enabled := true;
    ghost var kept: seq<MulMatch> := [];
    for i := 0 to |insts|
      invariant kept + Kept(insts[i..], enabled) == Kept(insts, true)
      invariant newS == RenderAll(kept)
      invariant forall k :: 0 <= k < |kept| ==> WellFormed(kept[k])
    {
      assert insts[i..][1..] == insts[i + 1..];
      match insts[i]
      case MulInstr(m) =>
        if enabled {
          RenderAllSnoc(kept, m);
          newS := newS + Render(m);
          kept := kept + [m];
        }
      case DoInstr =>
        enabled := true;
      case DontInstr =>
        enabled := false;
    }
    assert kept == Kept(insts, true);
    ScanRenderAll(kept);
    result := ParseLineToMulList(newS);
  }

  // Positions in a text, used to follow the scan over the samples of the
  // source's tests one stretch at a time.

  /** No 'm' from `i` up to `j`. */
  predicate NoMBetween(s: string, i: nat, j: nat)
  {
    i <= j <= |s| && forall p :: i <= p < j ==> s[p] != 'm'
  }

  /** The text `mul(` at position `k`. */
  predicate OpenAt(s: string, k: nat)
  {
    k + 4 <= |s| && s[k] == 'm' && s[k + 1] == 'u' && s[k + 2] == 'l' && s[k + 3] == '('
  }

  /** A run of digits from `i` up to `j`. */
  predicate DigitsBetween(s: string, i: nat, j: nat)
  {
    i < j <= |s| && forall p :: i <= p < j ==> IsDigit(s[p])
  }

  /** A well-formed match written at position `k`, its comma at `c` and its closing parenthesis just before `k2`. */
  predicate MulAt(s: string, k: nat, c: nat, k2: nat)
  {
    && OpenAt(s, k) && DigitsBetween(s, k + 4, c) && c + 2 < k2 <= |s|
    && s[c] == ',' && DigitsBetween(s, c + 1, k2 - 1) && s[k2 - 1] == ')'
  }

  /** `mul` at position `k` followed by something other than '('. */
  predicate UnopenedAt(s: string, k: nat)
  {
    k + 4 <= |s| && s[k] == 'm' && s[k + 1] == 'u' && s[k + 2] == 'l' && s[k + 3] != '('
  }

  /** `mul(<digits>,<digits>` at position `k`, closed at `e` by something other than ')'. */
  predicate UnclosedAt(s: string, k: nat, c: nat, e: nat)
  {
    && OpenAt(s, k) && DigitsBetween(s, k + 4, c) && DigitsBetween(s, c + 1, e) && e < |s|
    && s[c] == ',' && s[e] != ')' && !IsDigit(s[e])
  }

  /** The match at position `k` is the one `MulPrefix` finds there. */
  lemma MulPrefixAt(s: string, k: nat, c: nat, k2: nat)
    requires MulAt(s, k, c, k2)
    ensures MulPrefix(s[k..]) == Some((MulMatch(s[k + 4..c], s[c + 1..k2 - 1]), k2 - k))
    ensures s[k..][k2 - k..] == s[k2..]
  {
    var m := MulMatch(s[k + 4..c], s[c + 1..k2 - 1]);
    MulAtRender(s, k, c, k2);
    MulPrefixOfRender(m, s[k2..]);
  }

  /** The text from `k` on is the match written out, then the rest. */
  lemma MulAtRender(s: string, k: nat, c: nat, k2: nat)
    requires MulAt(s, k, c, k2)
    ensures WellFormed(MulMatch(s[k + 4..c], s[c + 1..k2 - 1]))
    ensures Render(MulMatch(s[k + 4..c], s[c + 1..k2 - 1])) + s[k2..] == s[k..]
  {
    assert s[k..k + 4] == "mul(";
    assert s[k..] == s[k..k + 4] + s[k + 4..c] + [s[c]] + s[c + 1..k2 - 1] + [s[k2 - 1]] + s[k2..];
  }

  /** Where `mul` is not followed by '(', no match starts. */
  lemma NoMulPrefixUnopened(s: string, k: nat)
    requires UnopenedAt(s, k)
    ensures MulPrefix(s[k..]).None?
  {
    assert s[k..][..4][3] == s[k + 3];
  }

  /** Where the arguments are not closed by ')', no match starts. */
  lemma NoMulPrefixUnclosed(s: string, k: nat, c: nat, e: nat)
    requires UnclosedAt(s, k, c, e)
    ensures MulPrefix(s[k..]).None?
  {
    var a, b := s[k + 4..c], s[c + 1..e];
    assert s[k..k + 4] == "mul(";
    assert s[k..] == "mul(" + (a + [','] + (b + [s[e]] + s[e + 1..]));
    BadCloseSkipped(a, b, s[e], s[e + 1..]);
  }

  /** A stretch of text without an 'm' is passed over. */
  lemma SkipSpan(s: string, k: nat, k2: nat)
    requires NoMBetween(s, k, k2)
    ensures ScanMuls(s[k..]) == ScanMuls(s[k2..])
  {
    assert s[k..k2] + s[k2..] == s[k..];
    ScanSkipNoM(s[k..k2], s[k2..]);
  }

  /** Where no match starts, the scan moves on by one character. */
  lemma NoMatchAt(s: string, k: nat)
    requires k < |s| && MulPrefix(s[k..]).None?
    ensures ScanMuls(s[k..]) == ScanMuls(s[k + 1..])
  {
    assert s[k..][1..] == s[k + 1..];
  }

  /** Text without an 'm' and then a match: the match is yielded, and the scan resumes after it. */
  lemma SkipThenMul(s: string, k: nat, j: nat, c: nat, k2: nat)
    requires NoMBetween(s, k, j) && MulAt(s, j, c, k2)
    ensures ScanMuls(s[k..]) == [MulMatch(s[j + 4..c], s[c + 1..k2 - 1])] + ScanMuls(s[k2..])
  {
    SkipSpan(s, k, j);
    MulPrefixAt(s, j, c, k2);
  }

  /** Text without an 'm' around a `mul` lacking its '(' is passed over. */
  lemma SkipPastUnopened(s: string, k: nat, j: nat, k2: nat)
    requires NoMBetween(s, k, j) && UnopenedAt(s, j) && NoMBetween(s, j + 1, k2)
    ensures ScanMuls(s[k..]) == ScanMuls(s[k2..])
  {
    SkipSpan(s, k, j);
    NoMulPrefixUnopened(s, j);
    NoMatchAt(s, j);
    SkipSpan(s, j + 1, k2);
  }

  /** Text without an 'm' around a `mul` lacking its ')' is passed over. */
  lemma SkipPastUnclosed(s: string, k: nat, j: nat, c: nat, e: nat, k2: nat)
    requires NoMBetween(s, k, j) && UnclosedAt(s, j, c, e) && NoMBetween(s, j + 1, k2)
    ensures ScanMuls(s[k..]) == ScanMuls(s[k2..])
  {
    SkipSpan(s, k, j);
    NoMulPrefixUnclosed(s, j, c, e);
    NoMatchAt(s, j);
    SkipSpan(s, j + 1, k2);
  }

  // The first sample of the source's tests, in three stretches: up to the
  // second match, up to the third, and the rest. Each stretch is followed
  // on any text with the same layout, and the sample is shown to have it.

  lemma ScanSampleOneFront(s: string)
    requires NoMBetween(s, 0, 1) && MulAt(s, 1, 6, 9)
    requires NoMBetween(s, 9, 11) && UnopenedAt(s, 11) && NoMBetween(s, 12, 29)
    ensures ScanMuls(s) == [MulMatch(s[5..6], s[7..8])] + ScanMuls(s[29..])
  {
    assert s[0..] == s;
    SkipThenMul(s, 0, 1, 6, 9);
    SkipPastUnopened(s, 9, 11, 29);
  }

  lemma ScanSampleOneMiddle(s: string)
    requires MulAt(s, 29, 34, 37)
    requires NoMBetween(s, 37, 38) && UnclosedAt(s, 38, 44, 47) && NoMBetween(s, 39, 53)
    ensures ScanMuls(s[29..]) == [MulMatch(s[33..34], s[35..36])] + ScanMuls(s[53..])
  {
    SkipThenMul(s, 29, 29, 34, 37);
    SkipPastUnclosed(s, 37, 38, 44, 47, 53);
  }

  lemma ScanSampleOneLast(s: string)
    requires |s| == 71 && MulAt(s, 62, 67, 70) && NoMBetween(s, 70, 71)
    ensures ScanMuls(s[62..]) == [MulMatch(s[66..67], s[68..69])]
  {
    SkipThenMul(s, 62, 62, 67, 70);
    SkipSpan(s, 70, 71);
    assert s[71..] == [];
  }

  lemma SampleOneFront(line: string)
    requires line == "xmul(2,4)%&mul[3,7]!" + "@^do_not_mul(5,5)+" + "mul(32,64]then(" + "mul(11,8)mul(8,5))"
    ensures NoMBetween(line, 0, 1) && MulAt(line, 1, 6, 9)
    ensures line[5..6] == "2" && line[7..8] == "4"
  {
    assert line[5..6] == [line[5]] && line[7..8] == [line[7]];
  }

  lemma SampleOneUnopened(line: string)
    requires line == "xmul(2,4)%&mul[3,7]!" + "@^do_not_mul(5,5)+" + "mul(32,64]then(" + "mul(11,8)mul(8,5))"
    ensures NoMBetween(line, 9, 11) && UnopenedAt(line, 11) && NoMBetween(line, 12, 29)
  {
  }

  lemma SampleOneMiddle(line: string)
    requires line == "xmul(2,4)%&mul[3,7]!" + "@^do_not_mul(5,5)+" + "mul(32,64]then(" + "mul(11,8)mul(8,5))"
    ensures MulAt(line, 29, 34, 37)
    ensures line[33..34] == "5" && line[35..36] == "5"
  {
    assert line[33..34] == [line[33]] && line[35..36] == [line[35]];
  }

  lemma SampleOneUnclosed(line: string)
    requires line == "xmul(2,4)%&mul[3,7]!" + "@^do_not_mul(5,5)+" + "mul(32,64]then(" + "mul(11,8)mul(8,5))"
    ensures NoMBetween(line, 37, 38) && UnclosedAt(line, 38, 44, 47) && NoMBetween(line, 39, 53)
  {
  }

  lemma SampleOneEnd(line: string)
    requires line == "xmul(2,4)%&mul[3,7]!" + "@^do_not_mul(5,5)+" + "mul(32,64]then(" + "mul(11,8)mul(8,5))"
    ensures |line| == 71 && MulAt(line, 53, 59, 62) && MulAt(line, 62, 67, 70) && NoMBetween(line, 70, 71)
    ensures line[57..59] == "11" && line[60..61] == "8" && line[66..67] == "8" && line[68..69] == "5"
  {
    assert line[57..59] == [line[57], line[58]] && line[60..61] == [line[60]];
    assert line[66..67] == [line[66]] && line[68..69] == [line[68]];
  }

  /** Four matches found one after the other. */
  lemma FourInTurn<T>(x0: seq<T>, x1: seq<T>, x2: seq<T>, x3: seq<T>, a: T, b: T, c: T, d: T)
    requires x0 == [a] + x1 && x1 == [b] + x2 && x2 == [c] + x3 && x3 == [d]
    ensures x0 == [a, b, c, d]
  {
  }

  /** Any text laid out like the first sample has four matches, at the places the layout names. */
  lemma ScanLaidOutLikeSampleOne(s: string)
    requires NoMBetween(s, 0, 1) && MulAt(s, 1, 6, 9)
    requires NoMBetween(s, 9, 11) && UnopenedAt(s, 11) && NoMBetween(s, 12, 29)
    requires MulAt(s, 29, 34, 37)
    requires NoMBetween(s, 37, 38) && UnclosedAt(s, 38, 44, 47) && NoMBetween(s, 39, 53)
    requires |s| == 71 && MulAt(s, 53, 59, 62) && MulAt(s, 62, 67, 70) && NoMBetween(s, 70, 71)
    ensures ScanMuls(s) == [MulMatch(s[5..6], s[7..8]), MulMatch(s[33..34], s[35..36]), MulMatch(s[57..59], s[60..61]), MulMatch(s[66..67], s[68..69])]
  {
    ScanSampleOneFront(s);
    ScanSampleOneMiddle(s);
    SkipThenMul(s, 53, 53, 59, 62);
    ScanSampleOneLast(s);
    FourInTurn(ScanMuls(s), ScanMuls(s[29..]), ScanMuls(s[53..]), ScanMuls(s[62..]),
      MulMatch(s[5..6], s[7..8]), MulMatch(s[33..34], s[35..36]), MulMatch(s[57..59], s[60..61]), MulMatch(s[66..67], s[68..69]));
  }

  /** The scan of the first sample of the source's tests: `mul[3,7]` and `mul(32,64]` are no matches. */
  lemma SampleOneScan(line: string)
    requires line == "xmul(2,4)%&mul[3,7]!" + "@^do_not_mul(5,5)+" + "mul(32,64]then(" + "mul(11,8)mul(8,5))"
    ensures ScanMuls(line) == [MulMatch("2", "4"), MulMatch("5", "5"), MulMatch("11", "8"), MulMatch("8", "5")]
  {
    SampleOneFront(line);
    SampleOneUnopened(line);
    SampleOneMiddle(line);
    SampleOneUnclosed(line);
    SampleOneEnd(line);
    ScanLaidOutLikeSampleOne(line);
  }

  /** The matches of the first sample convert to the four products of their values. */
  lemma SampleOneConverted(ms: seq<MulMatch>)
    requires ms == [MulMatch("2", "4"), MulMatch("5", "5"), MulMatch("11", "8"), MulMatch("8", "5")]
    ensures Converted(ms) == [Mul(2, 4), Mul(5, 5), Mul(11, 8), Mul(8, 5)]
  {
    assert "11"[..1] == "1";
    assert DecimalValue("11") == 11;
    ConvertedAllFit(ms);
  }

  /** Those products add up to 161. */
  lemma SampleOneSum(muls: seq<Mul>)
    requires muls == [Mul(2, 4), Mul(5, 5), Mul(11, 8), Mul(8, 5)]
    ensures SumProducts(muls) == 161
  {
    assert muls[..3] == [Mul(2, 4), Mul(5, 5), Mul(11, 8)];
    assert muls[..3][..2] == [Mul(2, 4), Mul(5, 5)];
    assert muls[..3][..2][..1] == [Mul(2, 4)];
    assert SumProducts([Mul(2, 4)]) == 8;
    assert SumProducts(muls[..3][..2]) == 33;
    assert SumProducts(muls[..3]) == 121;
  }

  /** The first sample gives four products adding up to 161. */
  lemma SampleOne(line: string)
    requires line == "xmul(2,4)%&mul[3,7]!" + "@^do_not_mul(5,5)+" + "mul(32,64]then(" + "mul(11,8)mul(8,5))"
    ensures Converted(ScanMuls(line)) == [Mul(2, 4), Mul(5, 5), Mul(11, 8), Mul(8, 5)]
    ensures SumProducts(Converted(ScanMuls(line))) == 161
  {
    SampleOneScan(line);
    SampleOneConverted(ScanMuls(line));
    SampleOneSum(Converted(ScanMuls(line)));
  }

  // The second sample of the source's tests, followed the same way by the
  // second pattern, which also stops at 'd'.

  /** Neither an 'm' nor a 'd' from `i` up to `j`. */
  predicate NoStartBetween(s: string, i: nat, j: nat)
  {
    i <= j <= |s| && forall p :: i <= p < j ==> s[p] != 'm' && s[p] != 'd'
  }

  /** The text `do()` at position `k`. */
  predicate DoAt(s: string, k: nat)
  {
    k + 4 <= |s| && s[k] == 'd' && s[k + 1] == 'o' && s[k + 2] == '(' && s[k + 3] == ')'
  }

  /** The text `don't()` at position `k`. */
  predicate DontAt(s: string, k: nat)
  {
    && k + 7 <= |s| && s[k] == 'd' && s[k + 1] == 'o' && s[k + 2] == 'n' && s[k + 3] == '\''
    && s[k + 4] == 't' && s[k + 5] == '(' && s[k + 6] == ')'
  }

  /** Text without an 'm' or a 'd' holds no instruction and is passed over. */
  lemma {:induction false} ScanInstructionsSkip(j: string, rest: string)
    requires forall i :: 0 <= i < |j| ==> j[i] != 'm' && j[i] != 'd'
    ensures ScanInstructions(j + rest) == ScanInstructions(rest)
  {
    if |j| > 0 {
      var s := j + rest;
      assert InstructionPrefix(s).None? by {
        if |s| >= 4 {
          assert s[..4][0] != 'm' && s[..4][0] != 'd';
        }
        if |s| >= 7 {
          assert s[..7][0] != 'd';
        }
      }
      assert s[1..] == j[1..] + rest;
      ScanInstructionsSkip(j[1..], rest);
    } else {
      assert j + rest == rest;
    }
  }

  lemma InstrSkipSpan(s: string, k: nat, k2: nat)
    requires NoStartBetween(s, k, k2)
    ensures ScanInstructions(s[k..]) == ScanInstructions(s[k2..])
  {
    assert s[k..k2] + s[k2..] == s[k..];
    ScanInstructionsSkip(s[k..k2], s[k2..]);
  }

  /** A match at position `k` is yielded by the second pattern too, and the scan resumes after it. */
  lemma InstrMulSpan(s: string, k: nat, c: nat, k2: nat)
    requires MulAt(s, k, c, k2)
    ensures ScanInstructions(s[k..]) == [MulInstr(MulMatch(s[k + 4..c], s[c + 1..k2 - 1]))] + ScanInstructions(s[k2..])
  {
    MulPrefixAt(s, k, c, k2);
    var m := MulMatch(s[k + 4..c], s[c + 1..k2 - 1]);
    ScanInstructionsFront(s[k..], m, k2 - k);
  }

  /** A `mul` matched at the front is yielded first, and the scan resumes after it. */
  lemma ScanInstructionsFront(t: string, m: MulMatch, n: nat)
    requires 0 < n <= |t| && MulPrefix(t) == Some((m, n))
    ensures ScanInstructions(t) == [MulInstr(m)] + ScanInstructions(t[n..])
  {
    assert InstructionPrefix(t) == Some((MulInstr(m), n));
  }

  /** Text without a start and then a match: the `mul` is yielded, and the scan resumes after it. */
  lemma InstrSkipThenMul(s: string, k: nat, j: nat, c: nat, k2: nat)
    requires NoStartBetween(s, k, j) && MulAt(s, j, c, k2)
    ensures ScanInstructions(s[k..]) == [MulInstr(MulMatch(s[j + 4..c], s[c + 1..k2 - 1]))] + ScanInstructions(s[k2..])
  {
    InstrSkipSpan(s, k, j);
    InstrMulSpan(s, j, c, k2);
  }

  /** Text without a start and then `do()`. */
  lemma InstrSkipThenDo(s: string, k: nat, j: nat)
    requires NoStartBetween(s, k, j) && DoAt(s, j)
    ensures ScanInstructions(s[k..]) == [DoInstr] + ScanInstructions(s[j + 4..])
  {
    InstrSkipSpan(s, k, j);
    assert s[j..][..4] == "do()";
    assert s[j..][4..] == s[j + 4..];
  }

  /** Text without a start and then `don't()`. */
  lemma InstrSkipThenDont(s: string, k: nat, j: nat)
    requires NoStartBetween(s, k, j) && DontAt(s, j)
    ensures ScanInstructions(s[k..]) == [DontInstr] + ScanInstructions(s[j + 7..])
  {
    InstrSkipSpan(s, k, j);
    ScanInstructionsDont(s, j);
  }

  /** A `don't()` at position `j` is yielded first, and the scan resumes after it. */
  lemma ScanInstructionsDont(s: string, j: nat)
    requires DontAt(s, j)
    ensures ScanInstructions(s[j..]) == [DontInstr] + ScanInstructions(s[j + 7..])
  {
    var t := s[j..];
    assert t[..7] == "don't()";
    assert t[..4][2] == 'n';
    assert InstructionPrefix(t) == Some((DontInstr, 7));
    assert t[7..] == s[j + 7..];
  }

  /** Where no instruction starts, the scan moves on by one character. */
  lemma InstrNoMatchAt(s: string, k: nat)
    requires k < |s| && MulPrefix(s[k..]).None? && s[k] == 'm'
    ensures ScanInstructions(s[k..]) == ScanInstructions(s[k + 1..])
  {
    assert s[k..][1..] == s[k + 1..];
    assert |s[k..]| >= 4 ==> s[k..][..4][0] == 'm';
    assert |s[k..]| >= 7 ==> s[k..][..7][0] == 'm';
  }

  lemma InstrSkipPastUnopened(s: string, k: nat, j: nat, k2: nat)
    requires NoStartBetween(s, k, j) && UnopenedAt(s, j) && NoStartBetween(s, j + 1, k2)
    ensures ScanInstructions(s[k..]) == ScanInstructions(s[k2..])
  {
    InstrSkipSpan(s, k, j);
    NoMulPrefixUnopened(s, j);
    InstrNoMatchAt(s, j);
    InstrSkipSpan(s, j + 1, k2);
  }

  lemma InstrSkipPastUnclosed(s: string, k: nat, j: nat, c: nat, e: nat, k2: nat)
    requires NoStartBetween(s, k, j) && UnclosedAt(s, j, c, e) && NoStartBetween(s, j + 1, k2)
    ensures ScanInstructions(s[k..]) == ScanInstructions(s[k2..])
  {
    InstrSkipSpan(s, k, j);
    NoMulPrefixUnclosed(s, j, c, e);
    InstrNoMatchAt(s, j);
    InstrSkipSpan(s, j + 1, k2);
  }

  lemma ScanSampleTwoFront(s: string)
    requires NoStartBetween(s, 0, 1) && MulAt(s, 1, 6, 9)
    requires NoStartBetween(s, 9, 10) && UnopenedAt(s, 10) && NoStartBetween(s, 11, 20)
    ensures ScanInstructions(s) == [MulInstr(MulMatch(s[5..6], s[7..8]))] + ScanInstructions(s[20..])
  {
    assert s[0..] == s;
    InstrSkipThenMul(s, 0, 1, 6, 9);
    InstrSkipPastUnopened(s, 9, 10, 20);
  }

  lemma ScanSampleTwoMiddle(s: string)
    requires NoStartBetween(s, 36, 37) && UnclosedAt(s, 37, 43, 46) && NoStartBetween(s, 38, 48)
    requires MulAt(s, 48, 54, 57)
    ensures ScanInstructions(s[36..]) == [MulInstr(MulMatch(s[52..54], s[55..56]))] + ScanInstructions(s[57..])
  {
    InstrSkipPastUnclosed(s, 36, 37, 43, 46, 48);
    InstrSkipThenMul(s, 48, 48, 54, 57);
  }

  lemma ScanSampleTwoLast(s: string)
    requires |s| == 73 && NoStartBetween(s, 63, 64) && MulAt(s, 64, 69, 72) && NoStartBetween(s, 72, 73)
    ensures ScanInstructions(s[63..]) == [MulInstr(MulMatch(s[68..69], s[70..71]))]
  {
    InstrSkipThenMul(s, 63, 64, 69, 72);
    InstrSkipSpan(s, 72, 73);
    assert s[73..] == [];
  }

  /** Six instructions found one after the other. */
  lemma SixInTurn<T>(x0: seq<T>, x1: seq<T>, x2: seq<T>, x3: seq<T>, x4: seq<T>, x5: seq<T>, a: T, b: T, c: T, d: T, e: T, f: T)
    requires x0 == [a] + x1 && x1 == [b] + x2 && x2 == [c] + x3 && x3 == [d] + x4 && x4 == [e] + x5 && x5 == [f]
    ensures x0 == [a, b, c, d, e, f]
  {
  }

  /** Any text laid out like the second sample holds these six instructions, at the places the layout names. */
  lemma ScanLaidOutLikeSampleTwo(s: string)
    requires NoStartBetween(s, 0, 1) && MulAt(s, 1, 6, 9)
    requires NoStartBetween(s, 9, 10) && UnopenedAt(s, 10) && NoStartBetween(s, 11, 20)
    requires DontAt(s, 20) && NoStartBetween(s, 27, 28) && MulAt(s, 28, 33, 36)
    requires NoStartBetween(s, 36, 37) && UnclosedAt(s, 37, 43, 46) && NoStartBetween(s, 38, 48)
    requires MulAt(s, 48, 54, 57) && NoStartBetween(s, 57, 59) && DoAt(s, 59)
    requires |s| == 73 && NoStartBetween(s, 63, 64) && MulAt(s, 64, 69, 72) && NoStartBetween(s, 72, 73)
    ensures ScanInstructions(s) == [
      MulInstr(MulMatch(s[5..6], s[7..8])), DontInstr, MulInstr(MulMatch(s[32..33], s[34..35])),
      MulInstr(MulMatch(s[52..54], s[55..56])), DoInstr, MulInstr(MulMatch(s[68..69], s[70..71]))]
  {
    ScanSampleTwoFront(s);
    InstrSkipThenDont(s, 20, 20);
    InstrSkipThenMul(s, 27, 28, 33, 36);
    ScanSampleTwoMiddle(s);
    InstrSkipThenDo(s, 57, 59);
    ScanSampleTwoLast(s);
    SixInTurn(ScanInstructions(s), ScanInstructions(s[20..]), ScanInstructions(s[27..]), ScanInstructions(s[36..]),
      ScanInstructions(s[57..]), ScanInstructions(s[63..]),
      MulInstr(MulMatch(s[5..6], s[7..8])), DontInstr, MulInstr(MulMatch(s[32..33], s[34..35])),
      MulInstr(MulMatch(s[52..54], s[55..56])), DoInstr, MulInstr(MulMatch(s[68..69], s[70..71])));
  }

  lemma SampleTwoFront(line: string)
    requires line == "xmul(2,4)&mul[3,7]!^" + "don't()_mul(5,5)+" + "mul(32,64](mul(11,8)" + "undo()?mul(8,5))"
    ensures NoStartBetween(line, 0, 1) && MulAt(line, 1, 6, 9)
    ensures line[5..6] == "2" && line[7..8] == "4"
  {
    assert line[5..6] == [line[5]] && line[7..8] == [line[7]];
  }

  lemma SampleTwoUnopened(line: string)
    requires line == "xmul(2,4)&mul[3,7]!^" + "don't()_mul(5,5)+" + "mul(32,64](mul(11,8)" + "undo()?mul(8,5))"
    ensures NoStartBetween(line, 9, 10) && UnopenedAt(line, 10) && NoStartBetween(line, 11, 20)
  {
  }

  lemma SampleTwoDont(line: string)
    requires line == "xmul(2,4)&mul[3,7]!^" + "don't()_mul(5,5)+" + "mul(32,64](mul(11,8)" + "undo()?mul(8,5))"
    ensures DontAt(line, 20) && NoStartBetween(line, 27, 28) && MulAt(line, 28, 33, 36)
    ensures line[32..33] == "5" && line[34..35] == "5"
  {
    assert line[32..33] == [line[32]] && line[34..35] == [line[34]];
  }

  lemma SampleTwoUnclosed(line: string)
    requires line == "xmul(2,4)&mul[3,7]!^" + "don't()_mul(5,5)+" + "mul(32,64](mul(11,8)" + "undo()?mul(8,5))"
    ensures NoStartBetween(line, 36, 37) && UnclosedAt(line, 37, 43, 46)
  {
  }

  lemma SampleTwoAfterUnclosed(line: string)
    requires line == "xmul(2,4)&mul[3,7]!^" + "don't()_mul(5,5)+" + "mul(32,64](mul(11,8)" + "undo()?mul(8,5))"
    ensures NoStartBetween(line, 38, 48)
  {
  }

  lemma SampleTwoDo(line: string)
    requires line == "xmul(2,4)&mul[3,7]!^" + "don't()_mul(5,5)+" + "mul(32,64](mul(11,8)" + "undo()?mul(8,5))"
    ensures MulAt(line, 48, 54, 57) && NoStartBetween(line, 57, 59) && DoAt(line, 59)
    ensures line[52..54] == "11" && line[55..56] == "8"
  {
    assert line[52..54] == [line[52], line[53]] && line[55..56] == [line[55]];
  }

  lemma SampleTwoEnd(line: string)
    requires line == "xmul(2,4)&mul[3,7]!^" + "don't()_mul(5,5)+" + "mul(32,64](mul(11,8)" + "undo()?mul(8,5))"
    ensures |line| == 73 && NoStartBetween(line, 63, 64) && MulAt(line, 64, 69, 72) && NoStartBetween(line, 72, 73)
    ensures line[68..69] == "8" && line[70..71] == "5"
  {
    assert line[68..69] == [line[68]] && line[70..71] == [line[70]];
  }

  /** The scan of the second sample of the source's tests: `don't()`, `undo()`'s `do()` and the four well-formed `mul`s. */
  lemma SampleTwoScan(line: string)
    requires line == "xmul(2,4)&mul[3,7]!^" + "don't()_mul(5,5)+" + "mul(32,64](mul(11,8)" + "undo()?mul(8,5))"
    ensures ScanInstructions(line) == [
      MulInstr(MulMatch("2", "4")), DontInstr, MulInstr(MulMatch("5", "5")),
      MulInstr(MulMatch("11", "8")), DoInstr, MulInstr(MulMatch("8", "5"))]
  {
    SampleTwoFront(line);
    SampleTwoUnopened(line);
    SampleTwoDont(line);
    SampleTwoUnclosed(line);
    SampleTwoAfterUnclosed(line);
    SampleTwoDo(line);
    SampleTwoEnd(line);
    ScanLaidOutLikeSampleTwo(line);
  }

  /** Only `mul(2,4)`, before the `don't()`, and `mul(8,5)`, after the `do()`, are kept. */
  lemma SampleTwoKept(insts: seq<Instruction>)
    requires insts == [
      MulInstr(MulMatch("2", "4")), DontInstr, MulInstr(MulMatch("5", "5")),
      MulInstr(MulMatch("11", "8")), DoInstr, MulInstr(MulMatch("8", "5"))]
    ensures Kept(insts, true) == [MulMatch("2", "4"), MulMatch("8", "5")]
  {
    var m24, m85 := MulMatch("2", "4"), MulMatch("8", "5");
    assert insts[5..][1..] == [];
    assert Kept(insts[5..], true) == [m85];
    assert insts[4..][1..] == insts[5..];
    assert Kept(insts[4..], false) == [m85];
    assert insts[3..][1..] == insts[4..];
    assert Kept(insts[3..], false) == [m85];
    assert insts[2..][1..] == insts[3..];
    assert Kept(insts[2..], false) == [m85];
    assert insts[1..][1..] == insts[2..];
    assert Kept(insts[1..], true) == [m85];
  }

  /** The kept matches convert to two products adding up to 48. */
  lemma SampleTwoProducts(ms: seq<MulMatch>)
    requires ms == [MulMatch("2", "4"), MulMatch("8", "5")]
    ensures Converted(ms) == [Mul(2, 4), Mul(8, 5)]
    ensures SumProducts(Converted(ms)) == 48
  {
    ConvertedAllFit(ms);
    var muls := [Mul(2, 4), Mul(8, 5)];
    assert Converted(ms) == muls;
    ProductsOfTwo(muls, 8, 40);
  }

  /** Two products added up. */
  lemma ProductsOfTwo(muls: seq<Mul>, p: nat, q: nat)
    requires |muls| == 2 && Calculate(muls[0]) == p && Calculate(muls[1]) == q
    ensures SumProducts(muls) == p + q
  {
    assert muls[..1][..0] == [];
    assert SumProducts(muls[..1]) == p;
    assert muls[..2][..1] == muls[..1] && muls[..2] == muls;
  }

  /** The second sample gives two enabled products adding up to 48. */
  lemma SampleTwo(line: string)
    requires line == "xmul(2,4)&mul[3,7]!^" + "don't()_mul(5,5)+" + "mul(32,64](mul(11,8)" + "undo()?mul(8,5))"
    ensures Converted(Kept(ScanInstructions(line), true)) == [Mul(2, 4), Mul(8, 5)]
    ensures SumProducts(Converted(Kept(ScanInstructions(line), true))) == 48
  {
    SampleTwoScan(line);
    SampleTwoKept(ScanInstructions(line));
    SampleTwoProducts(Kept(ScanInstructions(line), true));
  }
}
