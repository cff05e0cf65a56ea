/**
 * Reading a position from text such as "499,500": the parts between commas
 * that read as `i32` are kept, the others dropped, and exactly two kept
 * parts make a vector.
 */
module CoordinateText {
  import opened Wrappers
  import opened Text
  import opened Ints
  import opened Vectors

  datatype Vector2CreationError = EmptyValue | InvalidFormat

  /** One comma-separated part read as an `i32`. */
  function ParseCoordinate(part: string): Option<int>
  {
    ParseSigned(part, I32Min, I32Max)
  }

  /** The `filter_map`: the parts that read as `i32`, in order, the others dropped. */
  function KeptCoordinates(parts: seq<string>): (coords: seq<int>)
    ensures |coords| <= |parts|
    ensures forall i :: 0 <= i < |coords| ==> InI32(coords[i])
  {
    if |parts| == 0 then []
    else
      var init := KeptCoordinates(parts[..|parts| - 1]);
      match ParseCoordinate(parts[|parts| - 1])
      case Some(c) => init + [c]
      case None => init
  }

  /** The positions of the parts that read as `i32`, in increasing order. */
  function ReadableIndices(parts: seq<string>): (idx: seq<nat>)
    ensures forall k :: 0 <= k < |idx| ==> idx[k] < |parts|
  {
    if |parts| == 0 then []
    else
      var init := ReadableIndices(parts[..|parts| - 1]);
      if ParseCoordinate(parts[|parts| - 1]).Some? then init + [|parts| - 1] else init
  }

  /**
   * The kept coordinates are exactly the readable parts read, in order: the
   * k-th kept value is the reading of the k-th readable part, the readable
   * positions increase, and every readable part is among them.
   */
  lemma {:induction false} KeptCoordinatesExact(parts: seq<string>)
    ensures |KeptCoordinates(parts)| == |ReadableIndices(parts)|
    ensures forall k :: 0 <= k < |ReadableIndices(parts)| ==>
      ParseCoordinate(parts[ReadableIndices(parts)[k]]) == Some(KeptCoordinates(parts)[k])
    ensures forall k, l :: 0 <= k < l < |ReadableIndices(parts)| ==> ReadableIndices(parts)[k] < ReadableIndices(parts)[l]
    ensures forall i :: 0 <= i < |parts| && ParseCoordinate(parts[i]).Some? ==> i in ReadableIndices(parts)
  {
    if |parts| > 0 {
      var init := parts[..|parts| - 1];
      KeptCoordinatesExact(init);
      assert forall i :: 0 <= i < |init| ==> init[i] == parts[i];
    }
  }

  /** `new_from_str` on values: the empty string first, then exactly two kept coordinates. */
  function ParseVector(s: string): (r: Result<(int, int), Vector2CreationError>)
    ensures r == Err(EmptyValue) <==> s == ""
    ensures r.Ok? ==> InI32(r.value.0) && InI32(r.value.1)
  {
    if s == "" then Err(EmptyValue)
    else
      var coords := KeptCoordinates(Split(s, ','));
      if |coords| != 2 then Err(InvalidFormat) else Ok((coords[0], coords[1]))
  }

  /** `Vector2::new_from_str`: a fresh vector holding the parsed coordinates, or the error. */
  method NewFromStr(s: string) returns (r: Result<Vector2, Vector2CreationError>)
    ensures r.Ok? <==> ParseVector(s).Ok?
    ensures r.Err? ==> r.error == ParseVector(s).error
    ensures r.Ok? ==> fresh(r.value) && r.value.x == ParseVector(s).value.0 && r.value.y == ParseVector(s).value.1
  {
    if s == "" {
      return Err(EmptyValue);
    }
    var coords := KeptCoordinates(Split(s, ','));
    if |coords| != 2 {
      return Err(InvalidFormat);
    }
    var v := new Vector2(coords[0], coords[1]);
    return Ok(v);
  }

  /** Dropping parts that do not read keeps the ones that do, whatever surrounds them. */
  lemma {:induction false} KeptOfConcat(a: seq<string>, b: seq<string>)
    ensures KeptCoordinates(a + b) == KeptCoordinates(a) + KeptCoordinates(b)
    decreases |b|
  {
    if |b| == 0 {
      assert a + b == a;
    } else {
      var b' := b[..|b| - 1];
      assert (a + b)[..|a + b| - 1] == a + b';
      KeptOfConcat(a, b');
    }
  }

  /** Rendering two `i32` values with a comma between them and reading them back gives the same pair. */
  lemma ParseRendered(x: int, y: int)
    requires InI32(x) && InI32(y)
    ensures ParseVector(SignedString(x) + "," + SignedString(y)) == Ok((x, y))
  {
    var sx, sy := SignedString(x), SignedString(y);
    var s := sx + "," + sy;
    assert s == sx + [','] + sy;
    assert ',' !in sx && ',' !in sy by {
      assert forall i :: 0 <= i < |sx| ==> sx[i] != ',';
      assert forall i :: 0 <= i < |sy| ==> sy[i] != ',';
    }
    SplitAround(sx, ',', sy);
    SplitNoSeparator(sy, ',');
    SignedStringParses(x, I32Min, I32Max);
    SignedStringParses(y, I32Min, I32Max);
    assert [sx] + [sy] == [sx, sy];
    assert KeptCoordinates([sx, sy][..1]) == [x] by {
      assert [sx, sy][..1] == [sx];
      assert [sx][..0] == [];
    }
  }

  /** A part that does not read as `i32` is dropped: it does not stop the two readable parts around it from making a vector. */
  lemma ParseDropsUnreadable(x: int, junk: string, y: int)
    requires InI32(x) && InI32(y)
    requires ',' !in junk && ParseCoordinate(junk).None?
    ensures ParseVector(SignedString(x) + "," + junk + "," + SignedString(y)) == Ok((x, y))
  {
    var sx, sy := SignedString(x), SignedString(y);
    assert ',' !in sx && ',' !in sy by {
      assert forall i :: 0 <= i < |sx| ==> sx[i] != ',';
      assert forall i :: 0 <= i < |sy| ==> sy[i] != ',';
    }
    SplitThree(sx, junk, sy);
    SignedStringParses(x, I32Min, I32Max);
    SignedStringParses(y, I32Min, I32Max);
    KeptOfConcat([sx], [junk]);
    KeptOfConcat([sx] + [junk], [sy]);
    assert [sx] + [junk] + [sy] == [sx, junk, sy];
    assert KeptCoordinates([sx]) == [x] by { assert [sx][..0] == []; }
    assert KeptCoordinates([junk]) == [] by { assert [junk][..0] == []; }
    assert KeptCoordinates([sy]) == [y] by { assert [sy][..0] == []; }
    assert |sx + "," + junk + "," + sy| > 0;
  }

  /** Three comma-free parts joined by commas split back into those parts. */
  lemma SplitThree(a: string, b: string, c: string)
    requires ',' !in a && ',' !in b && ',' !in c
    ensures Split(a + "," + b + "," + c, ',') == [a, b, c]
  {
    assert a + "," + b + "," + c == a + [','] + (b + [','] + c);
    SplitAround(a, ',', b + [','] + c);
    SplitAround(b, ',', c);
    SplitNoSeparator(c, ',');
  }

  /** Three readable parts are one too many. */
  lemma ParseRejectsThree(x: int, y: int, z: int)
    requires InI32(x) && InI32(y) && InI32(z)
    ensures ParseVector(SignedString(x) + "," + SignedString(y) + "," + SignedString(z)) == Err(InvalidFormat)
  {
    var sx, sy, sz := SignedString(x), SignedString(y), SignedString(z);
    assert ',' !in sx && ',' !in sy && ',' !in sz by {
      assert forall i :: 0 <= i < |sx| ==> sx[i] != ',';
      assert forall i :: 0 <= i < |sy| ==> sy[i] != ',';
      assert forall i :: 0 <= i < |sz| ==> sz[i] != ',';
    }
    assert sx + "," + sy + "," + sz == sx + [','] + (sy + [','] + sz);
    SplitAround(sx, ',', sy + [','] + sz);
    SplitAround(sy, ',', sz);
    SplitNoSeparator(sz, ',');
    SignedStringParses(x, I32Min, I32Max);
    SignedStringParses(y, I32Min, I32Max);
    SignedStringParses(z, I32Min, I32Max);
    var parts := [sx, sy, sz];
    assert [sx] + ([sy] + [sz]) == parts;
    assert parts[..2] == [sx, sy] && parts[..2][..1] == [sx] && [sx][..0] == [];
    assert KeptCoordinates([sx]) == [x];
    assert KeptCoordinates([sx, sy]) == [x, y];
    assert KeptCoordinates(parts) == [x, y, z];
    assert |sx + "," + sy + "," + sz| > 0;
  }

  /** A single readable part, with no comma at all, is rejected. */
  lemma ParseRejectsOne(x: int)
    requires InI32(x)
    ensures ParseVector(SignedString(x)) == Err(InvalidFormat)
  {
    var sx := SignedString(x);
    assert ',' !in sx by {
      assert forall i :: 0 <= i < |sx| ==> sx[i] != ',';
    }
    SplitNoSeparator(sx, ',');
    SignedStringParses(x, I32Min, I32Max);
    assert [sx][..0] == [];
    assert KeptCoordinates([sx]) == [x];
  }

  /** One readable part beside one unreadable part is one coordinate short, whichever comes first. */
  lemma ParseRejectsJunkPair(x: int, junk: string)
    requires InI32(x)
    requires ',' !in junk && ParseCoordinate(junk).None?
    ensures ParseVector(junk + "," + SignedString(x)) == Err(InvalidFormat)
    ensures ParseVector(SignedString(x) + "," + junk) == Err(InvalidFormat)
  {
    var sx := SignedString(x);
    assert ',' !in sx by {
      assert forall i :: 0 <= i < |sx| ==> sx[i] != ',';
    }
    SignedStringParses(x, I32Min, I32Max);
    assert junk + "," + sx == junk + [','] + sx;
    SplitAround(junk, ',', sx);
    SplitNoSeparator(sx, ',');
    assert [junk] + [sx] == [junk, sx];
    assert [junk, sx][..1] == [junk] && [junk][..0] == [];
    assert KeptCoordinates([junk, sx]) == [x];
    assert |junk + "," + sx| > 0;
    assert sx + "," + junk == sx + [','] + junk;
    SplitAround(sx, ',', junk);
    SplitNoSeparator(junk, ',');
    assert [sx] + [junk] == [sx, junk];
    assert [sx, junk][..1] == [sx] && [sx][..0] == [];
    assert KeptCoordinates([sx, junk]) == [x];
    assert |sx + "," + junk| > 0;
  }

  /** The source's rejected examples: "" is its own error; "33", "3,3,3", "a,3" and "3,a" do not hold exactly two numbers. */
  lemma ParseRejectedExamples()
    ensures ParseVector("") == Err(EmptyValue)
    ensures ParseVector("33") == Err(InvalidFormat)
    ensures ParseVector("3,3,3") == Err(InvalidFormat)
    ensures ParseVector("a,3") == Err(InvalidFormat)
    ensures ParseVector("3,a") == Err(InvalidFormat)
  {
    assert SignedString(3) == "3";
    assert SignedString(33) == "33";
    assert ParseCoordinate("a").None? by { assert "a"[0] == 'a'; }
    ParseRejectsOne(33);
    ParseRejectsThree(3, 3, 3);
    assert SignedString(3) + "," + SignedString(3) + "," + SignedString(3) == "3,3,3";
    ParseRejectsJunkPair(3, "a");
    assert "a" + "," + SignedString(3) == "a,3";
    assert SignedString(3) + "," + "a" == "3,a";
  }

  /** The source's accepted examples, the grid corners, and "3,a,4", whose letter is dropped. */
  lemma ParseAcceptedExamples()
    ensures ParseVector("0,0") == Ok((0, 0))
    ensures ParseVector("999,999") == Ok((999, 999))
    ensures ParseVector("3,a,4") == Ok((3, 4))
  {
    assert SignedString(3) == "3";
    assert SignedString(4) == "4";
    assert SignedString(0) == "0";
    assert SignedString(999) == "999";
    assert ParseCoordinate("a").None? by { assert "a"[0] == 'a'; }
    ParseDropsUnreadable(3, "a", 4);
    assert SignedString(3) + "," + "a" + "," + SignedString(4) == "3,a,4";
    ParseRendered(0, 0);
    assert SignedString(0) + "," + SignedString(0) == "0,0";
    ParseRendered(999, 999);
    assert SignedString(999) + "," + SignedString(999) == "999,999";
  }
}
