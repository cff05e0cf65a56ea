/**
 * The shared two-dimensional integer vector: a position with `i32`
 * coordinates that is moved in place by adding an offset, and the four
 * unit offsets. The y axis points down, so "up" decreases y.
 */
module Vectors {
  import opened Ints
  import opened Wrappers
  import opened Text

  class Vector2 {
    var x: int
    var y: int

    /** `Vector2::new` stores both coordinates as given. */
    constructor(x: int, y: int)
      requires InI32(x) && InI32(y)
      ensures this.x == x && this.y == y
    {
      this.x := x;
      this.y := y;
    }

    /**
     * `add` moves this vector by `offset`, componentwise. An `i32` sum out
     * of range panics in the source, so the sums must fit.
     */
    method Add(offset: Vector2)
      requires InI32(x + offset.x) && InI32(y + offset.y)
      modifies this
      ensures x == old(x) + old(offset.x) && y == old(y) + old(offset.y)
    {
      var dx, dy := offset.x, offset.y;
      x := x + dx;
      y := y + dy;
    }

    /** `get_coords_str` of this position: a key that reads back as this position. */
    function CoordsStr(): (key: string)
      reads this
      requires InI32(x) && InI32(y)
      ensures ParseCoordsKey(key) == Some((x, y))
    {
      CoordsKeyParses(x, y);
      CoordsKey(x, y)
    }

    /** The unit offset towards smaller y. */
    static method Up() returns (v: Vector2)
      ensures fresh(v) && v.x == 0 && v.y == -1
    {
      v := new Vector2(0, -1);
    }

    /** The unit offset towards larger y. */
    static method Down() returns (v: Vector2)
      ensures fresh(v) && v.x == 0 && v.y == 1
    {
      v := new Vector2(0, 1);
    }

    /** The unit offset towards smaller x. */
    static method Left() returns (v: Vector2)
      ensures fresh(v) && v.x == -1 && v.y == 0
    {
      v := new Vector2(-1, 0);
    }

    /** The unit offset towards larger x. */
    static method Right() returns (v: Vector2)
      ensures fresh(v) && v.x == 1 && v.y == 0
    {
      v := new Vector2(1, 0);
    }
  }

  /** `get_coords_str`: the house key "_at_{x}_{y}" of a position, each coordinate as Rust displays an `i32`. */
  function CoordsKey(x: int, y: int): (key: string)
    requires InI32(x) && InI32(y)
    ensures |key| >= 7 && key[..4] == "_at_"
    ensures key[4] == '-' <==> x < 0
  {
    "_at_" + SignedString(x) + "_" + SignedString(y)
  }

  /** Reading a house key back recovers the position. */
  lemma CoordsKeyParses(x: int, y: int)
    requires InI32(x) && InI32(y)
    ensures ParseCoordsKey(CoordsKey(x, y)) == Some((x, y))
  {
    CoordsKeySplit(x, y);
    SignedStringParses(x, I32Min, I32Max);
    SignedStringParses(y, I32Min, I32Max);
  }

  /** A house key splits at its underscores into "", "at" and the two coordinates. */
  lemma CoordsKeySplit(x: int, y: int)
    requires InI32(x) && InI32(y)
    ensures Split(CoordsKey(x, y), '_') == ["", "at", SignedString(x), SignedString(y)]
  {
    var sx, sy := SignedString(x), SignedString(y);
    var key := CoordsKey(x, y);
    assert '_' !in sx && '_' !in sy by {
      assert forall i :: 0 <= i < |sx| ==> sx[i] != '_';
      assert forall i :: 0 <= i < |sy| ==> sy[i] != '_';
    }
    assert key == [] + ['_'] + ("at" + ['_'] + (sx + ['_'] + sy));
    SplitNoSeparator(sy, '_');
    SplitAround(sx, '_', sy);
    SplitAround("at", '_', sx + ['_'] + sy);
    SplitAround([], '_', "at" + ['_'] + (sx + ['_'] + sy));
    assert Split(key, '_') == ["", "at", sx, sy];
  }

  /** Reads a house key back: "_at_", two `i32` values, and an underscore between them. */
  function ParseCoordsKey(key: string): Option<(int, int)> {
    var parts := Split(key, '_');
    if |parts| == 4 && parts[0] == "" && parts[1] == "at" then
      match (ParseSigned(parts[2], I32Min, I32Max), ParseSigned(parts[3], I32Min, I32Max))
      case (Some(x), Some(y)) => Some((x, y))
      case _ => None
    else None
  }

  /** Distinct positions have distinct house keys. */
  lemma CoordsKeyInjective(x: int, y: int, x': int, y': int)
    requires InI32(x) && InI32(y) && InI32(x') && InI32(y')
    requires CoordsKey(x, y) == CoordsKey(x', y')
    ensures x == x' && y == y'
  {
    CoordsKeyParses(x, y);
    CoordsKeyParses(x', y');
  }

  /** The keys of the source's tests: "_at_3_5"... */
  lemma CoordsKeySmall()
    ensures CoordsKey(3, 5) == "_at_3_5"
  {
  }

  /** ..."_at_0_0"... */
  lemma CoordsKeyOrigin()
    ensures CoordsKey(0, 0) == "_at_0_0"
  {
  }

  /** ...and, with its minus sign, "_at_-10_4". */
  lemma CoordsKeyNegative()
    ensures CoordsKey(-10, 4) == "_at_-10_4"
  {
    assert DecimalString(10) == "10" by {
      assert DecimalString(1) == "1";
    }
  }

  /** Adding `up` and then `down` brings a vector back to where it started. */
  method UpThenDownReturns(v: Vector2)
    requires InI32(v.x) && InI32(v.y) && InI32(v.y - 1)
    modifies v
    ensures v.x == old(v.x) && v.y == old(v.y)
  {
    var up := Vector2.Up();
    v.Add(up);
    var down := Vector2.Down();
    v.Add(down);
  }

  /** Adding `left` and then `right` brings a vector back to where it started. */
  method LeftThenRightReturns(v: Vector2)
    requires InI32(v.x) && InI32(v.y) && InI32(v.x - 1)
    modifies v
    ensures v.x == old(v.x) && v.y == old(v.y)
  {
    var left := Vector2.Left();
    v.Add(left);
    var right := Vector2.Right();
    v.Add(right);
  }

  /** The additions of the source's test, ending at (6, -17). */
  method AddSequence() returns (v: Vector2)
    ensures v.x == 6 && v.y == -17
  {
    v := new Vector2(3, 5);
    var a := new Vector2(0, 1);
    v.Add(a);
    var b := new Vector2(1, 0);
    v.Add(b);
    var c := new Vector2(2, -3);
    v.Add(c);
    var d := new Vector2(0, -20);
    v.Add(d);
  }
}
