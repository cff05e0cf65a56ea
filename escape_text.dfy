/**
 * Matchsticks (2015 day 8): each line of the input is a string literal,
 * quotes included. Decoding it drops the quotes, then replaces every
 * `\x` followed by two hex digits with the character of that code, and
 * then every backslash followed by any character (but a line break) with
 * that character. A line contributes its length minus the length of its
 * decoding, both counted in UTF-8 bytes.
 *
 * The two passes are regular-expression replacements; each is modelled as
 * the left-to-right scan that replaces non-overlapping matches.
 */
module EscapeText {
  import opened Ints
  import opened Text

  predicate IsHexDigit(c: char) {
    IsDigit(c) || 'a' <= c <= 'f' || 'A' <= c <= 'F'
  }

  function HexValue(c: char): (v: nat)
    requires IsHexDigit(c)
    ensures v < 16
  {
    if IsDigit(c) then DigitValue(c)
    else if 'a' <= c <= 'f' then c as int - 'a' as int + 10
    else c as int - 'A' as int + 10
  }

  /** `\x` and two hex digits open `s`. */
  predicate HexEscapeAt(s: string) {
    |s| >= 4 && s[0] == '\\' && s[1] == 'x' && IsHexDigit(s[2]) && IsHexDigit(s[3])
  }

  /** The character a hex escape at the start of `s` stands for (`char::from` of the byte). */
  function HexChar(s: string): (c: char)
    requires HexEscapeAt(s)
    ensures c as int < 256
  {
    (HexValue(s[2]) * 16 + HexValue(s[3])) as char
  }

  /**
   * The first pass: `\\x([0-9A-Fa-f]{2})` replaced by the character of that
   * code. It never lengthens the text, and text without a backslash is left
   * as it is.
   */
  function HexPass(s: string): (r: string)
    ensures |r| <= |s|
    ensures '\\' !in s ==> r == s
    decreases |s|
  {
    if |s| == 0 then []
    else if HexEscapeAt(s) then [HexChar(s)] + HexPass(s[4..])
    else [s[0]] + HexPass(s[1..])
  }

  /** A backslash and a character other than a line break open `s` (the `.` of `\\(.)`). */
  predicate EscapeAt(s: string) {
    |s| >= 2 && s[0] == '\\' && s[1] != '\n'
  }

  /**
   * The second pass: `\\(.)` replaced by the escaped character. It never
   * lengthens the text, and text without a backslash is left as it is.
   */
  function EscapePass(s: string): (r: string)
    ensures |r| <= |s|
    ensures '\\' !in s ==> r == s
    decreases |s|
  {
    if |s| == 0 then []
    else if EscapeAt(s) then [s[1]] + EscapePass(s[2..])
    else [s[0]] + EscapePass(s[1..])
  }

  /** `clean_string`: the quotes dropped, then both passes. */
  function Clean(s: string): (c: string)
    requires |s| >= 2
    ensures Utf8Length(c) + 2 <= Utf8Length(s)
  {
    var inner := s[1..|s| - 1];
    assert s == [s[0]] + inner + [s[|s| - 1]];
    Utf8LengthAppend([s[0]] + inner, [s[|s| - 1]]);
    Utf8LengthAppend([s[0]], inner);
    HexPassShrinks(inner);
    EscapePassShrinks(HexPass(inner));
    EscapePass(HexPass(inner))
  }

  /** Bytes of one character in UTF-8. */
  function Utf8Width(c: char): (w: nat)
    ensures 1 <= w <= 4
  {
    if c as int < 0x80 then 1 else if c as int < 0x800 then 2 else if c as int < 0x10000 then 3 else 4
  }

  /** `str::len`: the length in UTF-8 bytes. */
  function Utf8Length(s: string): (n: nat)
    ensures n >= |s|
  {
    if |s| == 0 then 0 else Utf8Width(s[0]) + Utf8Length(s[1..])
  }

  lemma {:induction false} Utf8LengthAppend(a: string, b: string)
    ensures Utf8Length(a + b) == Utf8Length(a) + Utf8Length(b)
    decreases |a|
  {
    if |a| == 0 {
      assert a + b == b;
    } else {
      assert (a + b)[0] == a[0] && (a + b)[1..] == a[1..] + b;
      Utf8LengthAppend(a[1..], b);
    }
  }

  /** Only ASCII characters: then bytes and characters agree. */
  predicate IsAscii(s: string) {
    forall i :: 0 <= i < |s| ==> s[i] as int < 0x80
  }

  lemma {:induction false} Utf8LengthAscii(s: string)
    requires IsAscii(s)
    ensures Utf8Length(s) == |s|
  {
    if |s| > 0 {
      Utf8LengthAscii(s[1..]);
    }
  }

  /** `string_char_count`: the bytes of the decoded text. */
  function CharCount(s: string): (n: nat)
    requires |s| >= 2
    ensures n + 2 <= Utf8Length(s)
  {
    Utf8Length(Clean(s))
  }

  /** The hex pass never lengthens the text: four ASCII bytes become at most two. */
  lemma {:induction false} HexPassShrinks(s: string)
    ensures Utf8Length(HexPass(s)) <= Utf8Length(s)
    decreases |s|
  {
    if |s| > 0 {
      if HexEscapeAt(s) {
        HexPassShrinks(s[4..]);
        assert s == s[..4] + s[4..];
        Utf8LengthAppend(s[..4], s[4..]);
        Utf8LengthAppend([HexChar(s)], HexPass(s[4..]));
      } else {
        HexPassShrinks(s[1..]);
        Utf8LengthAppend([s[0]], HexPass(s[1..]));
      }
    }
  }

  /** The escape pass never lengthens the text: it only drops backslashes. */
  lemma {:induction false} EscapePassShrinks(s: string)
    ensures Utf8Length(EscapePass(s)) <= Utf8Length(s)
    decreases |s|
  {
    if |s| > 0 {
      if EscapeAt(s) {
        EscapePassShrinks(s[2..]);
        assert s[1..][1..] == s[2..];
        Utf8LengthAppend([s[1]], EscapePass(s[2..]));
      } else {
        EscapePassShrinks(s[1..]);
        Utf8LengthAppend([s[0]], EscapePass(s[1..]));
      }
    }
  }

  /** What a line adds to the total (line 43 of `main`): its length minus that of its decoding. */
  function Contribution(line: string): (n: nat)
    requires |line| >= 2
    ensures n + CharCount(line) == Utf8Length(line)
    ensures n >= 2
  {
    Utf8Length(line) - CharCount(line)
  }

  /** The total over lines, as `main` accumulates it. */
  function TotalOf(lines: seq<string>): nat
    requires forall i :: 0 <= i < |lines| ==> |lines[i]| >= 2
  {
    if |lines| == 0 then 0 else TotalOf(lines[..|lines| - 1]) + Contribution(lines[|lines| - 1])
  }

  /** Every line adds at least its two quotes, so the total never underflows and grows with the lines. */
  lemma {:induction false} TotalAtLeast(lines: seq<string>)
    requires forall i :: 0 <= i < |lines| ==> |lines[i]| >= 2
    ensures TotalOf(lines) >= 2 * |lines|
  {
    if |lines| > 0 {
      TotalAtLeast(lines[..|lines| - 1]);
    }
  }

  /** The loop of `main` (lines 34-44): each line's contribution added to the total. */
  method Total(lines: seq<string>) returns (total: nat)
    requires forall i :: 0 <= i < |lines| ==> |lines[i]| >= 2
    ensures total == TotalOf(lines)
  {
    total := 0;
    for i := 0 to |lines|
      invariant total == TotalOf(lines[..i])
    {
      assert lines[..i + 1][..i] == lines[..i];
      assert Contribution(lines[i]) + CharCount(lines[i]) == Utf8Length(lines[i]);
      total := total + (Utf8Length(lines[i]) - CharCount(lines[i]));
    }
    assert lines[..|lines|] == lines;
  }

  /** Writing a text as a literal: backslashes and quotes escaped, quotes around. */
  function Escaped(s: string): string {
    if |s| == 0 then []
    else if s[0] == '\\' || s[0] == '"' then ['\\', s[0]] + Escaped(s[1..])
    else [s[0]] + Escaped(s[1..])
  }

  function Quoted(s: string): string {
    "\"" + Escaped(s) + "\""
  }

  /** No backslash in `s` is followed by an 'x'. */
  predicate NoBackslashX(s: string) {
    forall i :: 0 <= i < |s| - 1 ==> !(s[i] == '\\' && s[i + 1] == 'x')
  }

  /**
   * The hex pass leaves an escaped text alone when no backslash of the
   * original is followed by an 'x': every backslash of the escaped text is
   * then followed by a backslash or a quote, and a doubled backslash by
   * something other than 'x'. Whatever follows is scanned on its own,
   * unless the text ends in a backslash and what follows opens with 'x'.
   */
  lemma {:induction false} HexPassEscaped(s: string, r: string)
    requires NoBackslashX(s)
    requires |s| > 0 && s[|s| - 1] == '\\' && |r| > 0 ==> r[0] != 'x'
    ensures HexPass(Escaped(s) + r) == Escaped(s) + HexPass(r)
    decreases |s|
  {
    if |s| == 0 {
      assert Escaped(s) + r == r;
    } else {
      var rest := Escaped(s[1..]);
      var tail := rest + r;
      assert NoBackslashX(s[1..]);
      HexPassEscaped(s[1..], r);
      if s[0] == '\\' || s[0] == '"' {
        if s[0] == '\\' && |tail| > 0 {
          if |s| > 1 {
            assert s[1] != 'x';
            EscapedHead(s[1..]);
            assert tail[0] == rest[0];
          } else {
            assert tail == r;
          }
        }
        EscapedPair(s[0], tail);
        Regroup(['\\', s[0]], rest, r);
        Regroup(['\\', s[0]], rest, HexPass(r));
      } else {
        assert ([s[0]] + tail)[1..] == tail;
        Regroup([s[0]], rest, r);
        Regroup([s[0]], rest, HexPass(r));
      }
    }
  }

  /** An escaped backslash or quote opens no hex escape, and neither does its second character unless an 'x' follows a backslash. */
  lemma EscapedPair(c: char, tail: string)
    requires c == '\\' || c == '"'
    requires c == '\\' && |tail| > 0 ==> tail[0] != 'x'
    ensures HexPass(['\\', c] + tail) == ['\\', c] + HexPass(tail)
  {
    var second := [c] + tail;
    var e := ['\\'] + second;
    assert ['\\'] + [c] == ['\\', c];
    Regroup(['\\'], [c], tail);
    assert e[1..] == second;
    assert second[1..] == tail;
    assert !HexEscapeAt(second);
    assert HexPass(second) == [c] + HexPass(tail);
    assert !HexEscapeAt(e);
    assert HexPass(e) == ['\\'] + HexPass(second);
    Regroup(['\\'], [c], HexPass(tail));
  }


  /** The first character of an escaped text: a backslash, or the first character itself. */
  lemma EscapedHead(s: string)
    requires |s| > 0
    ensures |Escaped(s)| > 0
    ensures Escaped(s)[0] == (if s[0] == '\\' || s[0] == '"' then '\\' else s[0])
  {
  }

  /** The escape pass undoes escaping; whatever follows is scanned on its own. */
  lemma {:induction false} EscapePassEscaped(s: string, r: string)
    ensures EscapePass(Escaped(s) + r) == s + EscapePass(r)
    decreases |s|
  {
    if |s| == 0 {
      assert Escaped(s) + r == r;
    } else {
      var rest := Escaped(s[1..]);
      var tail := rest + r;
      EscapePassEscaped(s[1..], r);
      if s[0] == '\\' || s[0] == '"' {
        var e := ['\\', s[0]] + tail;
        Regroup(['\\', s[0]], rest, r);
        assert EscapeAt(e);
        assert e[2..] == tail;
      } else {
        var e := [s[0]] + tail;
        Regroup([s[0]], rest, r);
        assert !EscapeAt(e);
        assert e[1..] == tail;
      }
      assert s == [s[0]] + s[1..];
      Regroup([s[0]], s[1..], EscapePass(r));
    }
  }

  /**
   * Decoding undoes writing a text as a literal, as long as no backslash
   * of the text is followed by an 'x'.
   */
  lemma CleanQuoted(s: string)
    requires NoBackslashX(s)
    ensures Clean(Quoted(s)) == s
  {
    var q := Quoted(s);
    var e := Escaped(s);
    assert q[1..|q| - 1] == e == e + [];
    HexPassEscaped(s, []);
    EscapePassEscaped(s, []);
    assert s + [] == s;
  }

  /**
   * Without that proviso the round trip fails: the hex pass runs over the
   * raw text first, so the escaped backslash of `\\x41` followed by `x41`
   * reads as a hex escape and the line decodes to "A".
   */
  lemma HexBeforeEscape(s: string)
    requires s == "\"\\\\x41\""
    ensures Clean(s) == "A"
  {
    var inner := s[1..|s| - 1];
    assert inner == "\\\\x41";
    assert !HexEscapeAt(inner) && HexEscapeAt(inner[1..]);
    assert HexChar(inner[1..]) == 'A';
    assert inner[1..][4..] == [];
    assert HexPass(inner[1..]) == "A";
    assert HexPass(inner) == "\\A";
    assert "\\A"[2..] == [];
    assert EscapeAt("\\A");
  }

  /** The hex escapes the source's tests decode. */
  lemma CleanHexExamples()
    ensures Clean("\"\\x27\"") == "'"
    ensures Clean("\"\\x2A\"") == "*"
    ensures Clean("\"\\x3D\"") == "="
  {
    HexExample("\"\\x27\"");
    HexExample("\"\\x2A\"");
    HexExample("\"\\x3D\"");
  }

  /** A quoted lone hex escape decodes to its character. */
  lemma HexExample(s: string)
    requires |s| == 6 && HexEscapeAt(s[1..5])
    ensures Clean(s) == [HexChar(s[1..5])]
  {
    var inner := s[1..|s| - 1];
    assert inner == s[1..5];
    assert inner[4..] == [];
    var decoded := [HexChar(inner)];
    assert HexPass(inner) == decoded;
    assert decoded[1..] == [];
    assert EscapePass(decoded) == decoded;
  }

  /** The counts the source's tests expect: the empty literal decodes to nothing... */
  lemma CountEmpty()
    ensures CharCount("\"\"") == 0
  {
    CleanQuoted("");
  }

  /** ...plain letters count one each... */
  lemma CountPlain()
    ensures CharCount("\"abc\"") == 3
  {
    CleanQuoted("abc");
    assert Quoted("abc") == "\"abc\"";
    Utf8LengthAscii("abc");
  }

  /** ...an escaped quote counts once... */
  lemma CountEscapedQuote(line: string)
    requires line == "\"aaa\\\"aaa\""
    ensures CharCount(line) == 7
  {
    var text := EscapedQuoteText(line);
    CleanQuoted(text);
    Utf8LengthAscii(text);
  }

  /** The text the literal `"aaa\"aaa"` writes. */
  lemma EscapedQuoteText(line: string) returns (text: string)
    requires line == "\"aaa\\\"aaa\""
    ensures Quoted(text) == line && NoBackslashX(text)
    ensures |text| == 7 && forall i :: 0 <= i < |text| ==> text[i] as int < 128
  {
    text := "aaa" + "\"" + "aaa";
    EscapedAppend("aaa" + "\"", "aaa");
    EscapedAppend("aaa", "\"");
    EscapedPlain("aaa");
    assert Escaped("\"") == "\\\"";
  }

  /** ...and so does a lone apostrophe. */
  lemma CountApostrophe()
    ensures CharCount("\"'\"") == 1
  {
    CleanQuoted("'");
    assert Quoted("'") == "\"'\"";
  }

  /** A character above the ASCII range counts two bytes: `\xaa` decodes to 'ª'. */
  lemma WideHexEscape(s: string)
    requires s == "\"\\xaa\""
    ensures Clean(s) == "\U{AA}" && CharCount(s) == 2
  {
    HexExample(s);
    assert Utf8Length("\U{AA}") == 2;
  }

  /** A text without backslashes has none followed by 'x'. */
  lemma NoBackslash(s: string)
    requires '\\' !in s
    ensures NoBackslashX(s)
  {
  }

  /** Escaping distributes over concatenation. */
  lemma {:induction false} EscapedAppend(x: string, y: string)
    ensures Escaped(x + y) == Escaped(x) + Escaped(y)
    decreases |x|
  {
    if |x| > 0 {
      assert (x + y)[0] == x[0] && (x + y)[1..] == x[1..] + y;
      EscapedAppend(x[1..], y);
      Regroup([x[0]], Escaped(x[1..]), Escaped(y));
      Regroup(['\\', x[0]], Escaped(x[1..]), Escaped(y));
    } else {
      assert x + y == y;
    }
  }

  /** A text without backslashes or quotes is written as it is. */
  lemma {:induction false} EscapedPlain(w: string)
    requires '\\' !in w && '"' !in w
    ensures Escaped(w) == w
  {
    if |w| > 0 {
      assert w[0] in w && forall c :: c in w[1..] ==> c in w;
      EscapedPlain(w[1..]);
    }
  }

  /** The hex pass decodes a hex escape between two escaped texts without backslashes. */
  lemma HexStep(a: string, hex: string, b: string)
    requires '\\' !in a && '\\' !in b
    requires |hex| == 4 && HexEscapeAt(hex)
    ensures HexPass(Escaped(a) + (hex + Escaped(b))) == Escaped(a) + ([HexChar(hex)] + Escaped(b))
  {
    var rest := hex + Escaped(b);
    NoBackslash(a);
    NoBackslash(b);
    HexPassEscaped(a, rest);
    assert rest[..4] == hex && rest[4..] == Escaped(b);
    assert rest[2] == hex[2] && rest[3] == hex[3];
    HexPassEscaped(b, []);
    assert Escaped(b) + [] == Escaped(b);
  }

  /** The escape pass then restores both texts around the decoded character. */
  lemma EscapeStep(a: string, c: char, b: string)
    requires c != '\\'
    ensures EscapePass(Escaped(a) + ([c] + Escaped(b))) == a + ([c] + b)
  {
    EscapePassEscaped(a, [c] + Escaped(b));
    assert ([c] + Escaped(b))[1..] == Escaped(b);
    EscapePassEscaped(b, []);
    assert Escaped(b) + [] == Escaped(b);
    assert b + [] == b;
  }

  /** The bytes of a character between two ASCII texts. */
  lemma WidthBetween(a: string, c: char, b: string)
    requires IsAscii(a) && IsAscii(b)
    ensures Utf8Length(a + ([c] + b)) == |a| + Utf8Width(c) + |b|
  {
    Utf8LengthAppend(a, [c] + b);
    Utf8LengthAppend([c], b);
    Utf8LengthAscii(a);
    Utf8LengthAscii(b);
  }

  /**
   * A hex escape between two escaped ASCII texts without backslashes: the
   * hex pass decodes it and the escape pass restores both texts, so the line
   * counts the texts' characters and the bytes of the decoded character.
   */
  lemma HexBetween(a: string, hex: string, b: string)
    requires '\\' !in a && '\\' !in b && IsAscii(a) && IsAscii(b)
    requires |hex| == 4 && HexEscapeAt(hex) && HexChar(hex) != '\\'
    ensures CharCount("\"" + (Escaped(a) + (hex + Escaped(b))) + "\"") == |a| + Utf8Width(HexChar(hex)) + |b|
  {
    var inner := Escaped(a) + (hex + Escaped(b));
    var line := "\"" + inner + "\"";
    assert line[1..|line| - 1] == inner;
    HexStep(a, hex, b);
    EscapeStep(a, HexChar(hex), b);
    WidthBetween(a, HexChar(hex), b);
  }

  /** `\xaa` is the hex escape of 'ª', two bytes wide. */
  lemma HexAA(hex: string)
    requires hex == "\\xaa"
    ensures |hex| == 4 && HexEscapeAt(hex) && HexChar(hex) == '\U{AA}' && Utf8Width(HexChar(hex)) == 2
  {
    assert HexValue('a') == 10;
  }

  /** The two texts of the longest test line: ASCII, without backslashes, 23 and 8 characters. */
  lemma MixedTexts(a: string, b: string)
    requires a == "\"fxdnmvnftxwesmvvq\"sjnf" && b == "bpg\"iary"
    ensures '\\' !in a && '\\' !in b && IsAscii(a) && IsAscii(b) && |a| == 23 && |b| == 8
  {
  }

  /**
   * The longest line of the source's tests, built from its two texts: escaped
   * quotes, and a `\xaa` that decodes to one character of two bytes, 33
   * bytes in all.
   */
  lemma CountMixed(a: string, b: string, line: string)
    requires a == "\"fxdnmvnftxwesmvvq\"sjnf" && b == "bpg\"iary"
    requires line == "\"" + (Escaped(a) + ("\\xaa" + Escaped(b))) + "\""
    ensures CharCount(line) == 33
  {
    var hex := "\\xaa";
    HexAA(hex);
    MixedTexts(a, b);
    HexBetween(a, hex, b);
  }
}
