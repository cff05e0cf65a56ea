/**
 * Character classes, splitting and number parsing shared by the puzzle
 * modules. Input is assumed to be ASCII: Rust's Unicode-aware `\d`,
 * `char::is_numeric` and `char::is_whitespace` are modelled by their ASCII
 * subsets.
 */
module Text {
  import opened Wrappers

  predicate IsDigit(c: char) { '0' <= c <= '9' }

  predicate IsLowerLetter(c: char) { 'a' <= c <= 'z' }

  /** ASCII part of Rust's `char::is_whitespace`. */
  predicate IsWhitespace(c: char) {
    c == ' ' || c == '\t' || c == '\n' || c == '\r' || c == '\U{0B}' || c == '\U{0C}'
  }

  /** A non-empty run of decimal digits (the regex `\d+`). */
  predicate IsDigits(s: string) {
    |s| > 0 && forall i :: 0 <= i < |s| ==> IsDigit(s[i])
  }

  /** A non-empty run of lower-case letters (the regex `[a-z]+`). */
  predicate IsLowerWord(s: string) {
    |s| > 0 && forall i :: 0 <= i < |s| ==> IsLowerLetter(s[i])
  }

  function DigitValue(c: char): (d: nat)
    requires IsDigit(c)
    ensures d < 10
  {
    c as int - '0' as int
  }

  function DigitChar(d: nat): (c: char)
    requires d < 10
    ensures IsDigit(c) && DigitValue(c) == d
  {
    ('0' as int + d) as char
  }

  /** The value of a string of decimal digits, read left to right. */
  function DecimalValue(s: string): nat
    requires forall i :: 0 <= i < |s| ==> IsDigit(s[i])
  {
    if |s| == 0 then 0 else 10 * DecimalValue(s[..|s| - 1]) + DigitValue(s[|s| - 1])
  }

  /** The shortest decimal rendering of `n` (Rust's `Display`, JavaScript's `toString`). */
  function DecimalString(n: nat): (s: string)
    ensures IsDigits(s)
    ensures |s| > 1 ==> s[0] != '0'
    decreases n
  {
    if n < 10 then [DigitChar(n)] else DecimalString(n / 10) + [DigitChar(n % 10)]
  }

  lemma {:induction false} DecimalStringValue(n: nat)
    ensures DecimalValue(DecimalString(n)) == n
    decreases n
  {
    if n >= 10 {
      var s := DecimalString(n);
      assert s[..|s| - 1] == DecimalString(n / 10);
      DecimalStringValue(n / 10);
    }
  }

  /** Distinct numbers have distinct decimal renderings. */
  lemma DecimalStringInjective(m: nat, n: nat)
    requires DecimalString(m) == DecimalString(n)
    ensures m == n
  {
    DecimalStringValue(m);
    DecimalStringValue(n);
  }

  /** Rust's `Display` for a signed integer: a '-' before the digits of a negative value. */
  function SignedString(n: int): (s: string)
    ensures |s| > 0 && (s[0] == '-' <==> n < 0)
    ensures forall i :: 0 <= i < |s| ==> IsDigit(s[i]) || s[i] == '-'
  {
    if n < 0 then "-" + DecimalString(-n) else DecimalString(n)
  }

  /** Distinct integers have distinct signed renderings. */
  lemma SignedStringInjective(m: int, n: int)
    requires SignedString(m) == SignedString(n)
    ensures m == n
  {
    if m < 0 && n < 0 {
      assert SignedString(m)[1..] == DecimalString(-m);
      assert SignedString(n)[1..] == DecimalString(-n);
      DecimalStringInjective(-m, -n);
    } else if m >= 0 && n >= 0 {
      DecimalStringInjective(m, n);
    }
  }

  /**
   * Rust's `str::parse` for an unsigned integer type whose largest value is
   * `max`: an optional '+', then at least one digit, and a value in range.
   */
  function ParseUnsigned(s: string, max: nat): (r: Option<nat>)
    ensures r.Some? ==> r.value <= max
    ensures r.Some? ==> |s| > 0 && (IsDigits(s) || (s[0] == '+' && IsDigits(s[1..])))
  {
    var digits := if |s| > 0 && s[0] == '+' then s[1..] else s;
    if IsDigits(digits) && DecimalValue(digits) <= max then Some(DecimalValue(digits)) else None
  }

  /** A decimal rendering parses back to its value. */
  lemma UnsignedStringParses(n: nat, max: nat)
    requires n <= max
    ensures ParseUnsigned(DecimalString(n), max) == Some(n)
  {
    DecimalStringValue(n);
    assert DecimalString(n)[0] != '+';
  }

  /**
   * Rust's `str::parse` for a signed integer type with range `min..=max`:
   * an optional '+' or '-', then at least one digit, and a value in range.
   */
  function ParseSigned(s: string, min: int, max: int): (r: Option<int>)
    requires min <= 0 <= max
    ensures r.Some? ==> min <= r.value <= max
  {
    if |s| > 0 && s[0] == '-' then
      var digits := s[1..];
      if IsDigits(digits) && min <= 0 - DecimalValue(digits) then Some(0 - DecimalValue(digits)) else None
    else
      var digits := if |s| > 0 && s[0] == '+' then s[1..] else s;
      if IsDigits(digits) && DecimalValue(digits) <= max then Some(DecimalValue(digits)) else None
  }

  /** A signed rendering parses back to its value. */
  lemma SignedStringParses(n: int, min: int, max: int)
    requires min <= 0 <= max && min <= n <= max
    ensures ParseSigned(SignedString(n), min, max) == Some(n)
  {
    var s := SignedString(n);
    if n < 0 {
      assert s[1..] == DecimalString(-n);
      DecimalStringValue(-n);
    } else {
      DecimalStringValue(n);
    }
  }

  /** Rust's `str::split(sep)`: every part, empty ones included; there is always at least one. */
  function Split(s: string, sep: char): (parts: seq<string>)
    ensures |parts| >= 1
    ensures forall i :: 0 <= i < |parts| ==> sep !in parts[i]
  {
    if |s| == 0 then [""]
    else
      var rest := Split(s[1..], sep);
      if s[0] == sep then [""] + rest else [[s[0]] + rest[0]] + rest[1..]
  }

  /** The inverse of `Split`: the parts with `sep` between each two of them. */
  function Join(parts: seq<string>, sep: char): string
    requires |parts| >= 1
  {
    if |parts| == 1 then parts[0] else parts[0] + [sep] + Join(parts[1..], sep)
  }

  lemma {:induction false} JoinSplit(s: string, sep: char)
    ensures Join(Split(s, sep), sep) == s
  {
    if |s| > 0 {
      JoinSplit(s[1..], sep);
      var rest := Split(s[1..], sep);
      if s[0] != sep {
        if |rest| == 1 {
        } else {
          assert ([s[0]] + rest[0]) + [sep] + Join(rest[1..], sep) == [s[0]] + (rest[0] + [sep] + Join(rest[1..], sep));
        }
      }
    }
  }

  lemma {:induction false} SplitNoSeparator(s: string, sep: char)
    requires sep !in s
    ensures Split(s, sep) == [s]
  {
    if |s| > 0 {
      SplitNoSeparator(s[1..], sep);
      assert [s[0]] + s[1..] == s;
    }
  }

  /** Splitting a concatenation around one separator concatenates the splits. */
  lemma {:induction false} SplitAround(a: string, sep: char, b: string)
    requires sep !in a
    ensures Split(a + [sep] + b, sep) == [a] + Split(b, sep)
  {
    if |a| == 0 {
      assert a + [sep] + b == [sep] + b;
      assert ([sep] + b)[1..] == b;
    } else {
      SplitAround(a[1..], sep, b);
      assert (a + [sep] + b)[1..] == a[1..] + [sep] + b;
      assert [a[0]] + a[1..] == a;
    }
  }

  /** Splitting at a separator splits each side on its own. */
  lemma {:induction false} SplitAppend(a: string, sep: char, b: string)
    ensures Split(a + [sep] + b, sep) == Split(a, sep) + Split(b, sep)
  {
    if |a| == 0 {
      var s := a + [sep] + b;
      assert s == [sep] + b;
      assert s[1..] == b;
    } else {
      SplitAppend(a[1..], sep, b);
      SplitConsAppend(a, sep, b);
    }
  }

  /** The step of `SplitAppend`: the first character joins the first part, or starts a new one. */
  lemma {:induction false} SplitConsAppend(a: string, sep: char, b: string)
    requires |a| > 0
    requires Split(a[1..] + [sep] + b, sep) == Split(a[1..], sep) + Split(b, sep)
    ensures Split(a + [sep] + b, sep) == Split(a, sep) + Split(b, sep)
  {
    if a[0] == sep {
      SplitSepAppend(a, sep, b);
    } else {
      SplitCharAppend(a, sep, b);
    }
  }

  lemma {:induction false} SplitSepAppend(a: string, sep: char, b: string)
    requires |a| > 0 && a[0] == sep
    requires Split(a[1..] + [sep] + b, sep) == Split(a[1..], sep) + Split(b, sep)
    ensures Split(a + [sep] + b, sep) == Split(a, sep) + Split(b, sep)
  {
    var s := a + [sep] + b;
    assert s[1..] == a[1..] + [sep] + b;
    assert s[0] == sep;
  }

  lemma {:induction false} SplitCharAppend(a: string, sep: char, b: string)
    requires |a| > 0 && a[0] != sep
    requires Split(a[1..] + [sep] + b, sep) == Split(a[1..], sep) + Split(b, sep)
    ensures Split(a + [sep] + b, sep) == Split(a, sep) + Split(b, sep)
  {
    var s := a + [sep] + b;
    assert s[1..] == a[1..] + [sep] + b;
    assert s[0] == a[0];
    ConsRegroup([a[0]], Split(a[1..], sep), Split(b, sep));
  }

  /** Extending the first part of `front + back` extends the first part of `front`. */
  lemma ConsRegroup(x: string, front: seq<string>, back: seq<string>)
    requires |front| >= 1
    ensures [x + (front + back)[0]] + (front + back)[1..] == ([x + front[0]] + front[1..]) + back
  {
    assert (front + back)[0] == front[0];
    assert (front + back)[1..] == front[1..] + back;
    Regroup([x + front[0]], front[1..], back);
  }

  /** Splitting the join of separator-free parts gives the parts back. */
  lemma {:induction false} SplitJoin(parts: seq<string>, sep: char)
    requires |parts| >= 1
    requires forall i :: 0 <= i < |parts| ==> sep !in parts[i]
    ensures Split(Join(parts, sep), sep) == parts
  {
    if |parts| == 1 {
      SplitNoSeparator(parts[0], sep);
    } else {
      SplitJoin(parts[1..], sep);
      SplitAround(parts[0], sep, Join(parts[1..], sep));
    }
  }

  /** Splits on every whitespace character and drops the empty parts (Rust's `split_whitespace`). */
  function Words(s: string): (words: seq<string>)
    ensures forall i :: 0 <= i < |words| ==> |words[i]| > 0
    ensures forall i, j :: 0 <= i < |words| && 0 <= j < |words[i]| ==> !IsWhitespace(words[i][j])
    ensures |s| > 0 && !IsWhitespace(s[0]) ==> |words| > 0 && words[0][0] == s[0]
  {
    if |s| == 0 then []
    else
      var rest := Words(s[1..]);
      if IsWhitespace(s[0]) then rest
      else if |s| > 1 && !IsWhitespace(s[1]) then
        [[s[0]] + rest[0]] + rest[1..]
      else [[s[0]]] + rest
  }

  /** A string with no whitespace in it is one word of Words, or none when it is empty. */
  predicate AllBlank(s: string) {
    forall i :: 0 <= i < |s| ==> IsWhitespace(s[i])
  }

  lemma {:induction false} WordsOfBlank(s: string)
    ensures Words(s) == [] <==> AllBlank(s)
  {
    if |s| > 0 {
      WordsOfBlank(s[1..]);
    }
  }

  /** A string without whitespace, such as a name or a number, is a word of its own. */
  predicate IsWord(w: string) {
    |w| > 0 && forall i :: 0 <= i < |w| ==> !IsWhitespace(w[i])
  }

  /** A whitespace-free string is its own single word. */
  lemma {:induction false} WordsOfWord(w: string)
    requires IsWord(w)
    ensures Words(w) == [w]
  {
    if |w| > 1 {
      WordsOfWord(w[1..]);
      assert [w[0]] + w[1..] == w;
    } else {
      assert w[1..] == [];
      assert [w[0]] == w;
    }
  }

  /** A word followed by whitespace is the first word, and the rest splits on its own. */
  lemma {:induction false} WordsAround(w: string, c: char, rest: string)
    requires IsWord(w) && IsWhitespace(c)
    ensures Words(w + [c] + rest) == [w] + Words(rest)
  {
    var s := w + [c] + rest;
    if |w| == 1 {
      assert s[0] == w[0] && s[1] == c && [w[0]] == w;
      assert s[1..] == [c] + rest;
      assert ([c] + rest)[1..] == rest;
    } else {
      WordsAround(w[1..], c, rest);
      assert s[1..] == w[1..] + [c] + rest;
      assert [w[0]] + w[1..] == w;
    }
  }

  /** Leading whitespace is skipped. */
  lemma WordsSkipBlank(c: char, rest: string)
    requires IsWhitespace(c)
    ensures Words([c] + rest) == Words(rest)
  {
    assert ([c] + rest)[1..] == rest;
  }

  /** Number of occurrences of `c` in `s`. */
  function Count(s: string, c: char): nat
  {
    if |s| == 0 then 0 else Count(s[..|s| - 1], c) + (if s[|s| - 1] == c then 1 else 0)
  }

  /**
   * Concatenation regrouped, for a loop step that moves an item from what
   * is still to come to what has been gathered.
   */
  lemma Regroup<T>(a: seq<T>, b: seq<T>, c: seq<T>)
    ensures (a + b) + c == a + (b + c)
  {
  }
}
