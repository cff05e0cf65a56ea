/**
 * Wrapping paper for presents (2015 day 2): a box is read from text such
 * as "2x3x4" (length, width and height), and the paper it needs is its
 * surface area plus the area of its smallest face.
 *
 * The dimensions are `u32`. The model computes on unbounded integers and
 * states as preconditions that the areas fit, where the source's `u32`
 * arithmetic would overflow.
 */
module PresentBoxes {
  import opened Wrappers
  import opened Ints
  import opened Text

  datatype PresentBoxCreationError = InvalidDimensions

  datatype PresentBox = PresentBox(length: nat, width: nat, height: nat)

  /** A box the parser can produce: three positive `u32` dimensions. */
  predicate IsBox(b: PresentBox) {
    0 < b.length <= U32Max && 0 < b.width <= U32Max && 0 < b.height <= U32Max
  }

  /** One part of the text: its `u32` value, or 0 when it does not parse (`unwrap_or(0)`). */
  function DimensionOf(d: string): (v: nat)
    ensures v <= U32Max
    ensures v > 0 <==> ParseUnsigned(d, U32Max).Some? && ParseUnsigned(d, U32Max).value > 0
  {
    match ParseUnsigned(d, U32Max)
    case Some(v) => v
    case None => 0
  }

  /** Every part read as a dimension, in order. */
  function Dimensions(parts: seq<string>): (ds: seq<nat>)
    ensures |ds| == |parts|
    ensures forall i :: 0 <= i < |parts| ==> ds[i] == DimensionOf(parts[i])
  {
    if |parts| == 0 then [] else [DimensionOf(parts[0])] + Dimensions(parts[1..])
  }

  /**
   * `PresentBox::new`: the text split on 'x'; any part that is not a
   * positive `u32`, or a number of parts other than three, is
   * `InvalidDimensions`.
   */
  function New(s: string): (r: Result<PresentBox, PresentBoxCreationError>)
    ensures r.Ok? ==> IsBox(r.value)
    ensures r.Ok? <==> |Split(s, 'x')| == 3 && forall i :: 0 <= i < 3 ==> DimensionOf(Split(s, 'x')[i]) > 0
  {
    var ds := Dimensions(Split(s, 'x'));
    if 0 in ds || |ds| != 3 then Err(InvalidDimensions)
    else Ok(PresentBox(ds[0], ds[1], ds[2]))
  }

  /** The text of a box, as the puzzle input writes it. */
  function Render(b: PresentBox): string {
    DecimalString(b.length) + "x" + DecimalString(b.width) + "x" + DecimalString(b.height)
  }

  /** A dimension written in decimal reads back as itself. */
  lemma DimensionOfDecimal(n: nat)
    requires 0 < n <= U32Max
    ensures DimensionOf(DecimalString(n)) == n
    ensures 'x' !in DecimalString(n)
  {
    DecimalStringValue(n);
    var s := DecimalString(n);
    assert s[0] != '+';
    assert forall i :: 0 <= i < |s| ==> s[i] != 'x';
  }

  /** Parsing undoes writing: every valid box is read back from its own text. */
  lemma NewRender(b: PresentBox)
    requires IsBox(b)
    ensures New(Render(b)) == Ok(b)
  {
    var parts := [DecimalString(b.length), DecimalString(b.width), DecimalString(b.height)];
    DimensionOfDecimal(b.length);
    DimensionOfDecimal(b.width);
    DimensionOfDecimal(b.height);
    assert Join(parts, 'x') == Render(b) by {
      assert parts[1..][1..] == [parts[2]];
      assert Join(parts[1..], 'x') == parts[1] + ['x'] + parts[2];
    }
    SplitJoin(parts, 'x');
    assert Dimensions(parts) == [b.length, b.width, b.height];
  }

  /** `new` on parts joined by 'x', read part by part. */
  lemma NewOfParts(parts: seq<string>)
    requires |parts| >= 1 && forall i :: 0 <= i < |parts| ==> 'x' !in parts[i]
    ensures New(Join(parts, 'x')).Ok? <==> |parts| == 3 && 0 !in Dimensions(parts)
  {
    SplitJoin(parts, 'x');
  }

  /** A zero dimension is rejected. */
  lemma NewRejectsZero()
    ensures New("0x3x5") == Err(InvalidDimensions)
  {
    var parts := ["0", "3", "5"];
    NewOfParts(parts);
    assert Join(parts, 'x') == "0x3x5";
    assert DimensionOf("0") == 0;
  }

  /** Two parts are too few. */
  lemma NewRejectsTwoParts()
    ensures New("2x3") == Err(InvalidDimensions)
  {
    var parts := ["2", "3"];
    NewOfParts(parts);
    assert Join(parts, 'x') == "2x3";
  }

  /** Four parts are too many. */
  lemma NewRejectsFourParts()
    ensures New("2x3x4x5") == Err(InvalidDimensions)
  {
    var parts := ["2", "3", "4", "5"];
    NewOfParts(parts);
    assert Join(parts, 'x') == "2x3x4x5";
  }

  /** A signed part reads as 0 and is rejected. */
  lemma NewRejectsSigned()
    ensures New("2x-3x4") == Err(InvalidDimensions)
  {
    var parts := ["2", "-3", "4"];
    NewOfParts(parts);
    assert Join(parts, 'x') == "2x-3x4";
    assert DimensionOf("-3") == 0;
  }

  /** A fractional part reads as 0 and is rejected. */
  lemma NewRejectsFraction()
    ensures New("2x3x3.14") == Err(InvalidDimensions)
  {
    var parts := ["2", "3", "3.14"];
    NewOfParts(parts);
    assert Join(parts, 'x') == "2x3x3.14";
    assert !IsDigit("3.14"[1]);
    assert DimensionOf("3.14") == 0;
  }

  /** A non-numeric part reads as 0 and is rejected. */
  lemma NewRejectsLetter()
    ensures New("ax3x4") == Err(InvalidDimensions)
  {
    var parts := ["a", "3", "4"];
    NewOfParts(parts);
    assert Join(parts, 'x') == "ax3x4";
    assert DimensionOf("a") == 0;
  }

  /** The boxes the source's tests build: "2x3x4"... */
  lemma NewAcceptsSmall()
    ensures New("2x3x4") == Ok(PresentBox(2, 3, 4))
  {
    NewRender(PresentBox(2, 3, 4));
    assert Render(PresentBox(2, 3, 4)) == "2x3x4";
  }

  /** ...and "21x37x69". */
  lemma NewAcceptsLarge()
    ensures New("21x37x69") == Ok(PresentBox(21, 37, 69))
  {
    var b := PresentBox(21, 37, 69);
    NewRender(b);
    RenderLarge(b);
  }

  lemma RenderLarge(b: PresentBox)
    requires b == PresentBox(21, 37, 69)
    ensures Render(b) == "21x37x69"
  {
    assert DecimalString(21) == "21" && DecimalString(37) == "37" && DecimalString(69) == "69";
  }

  /** `get_surface_a`: the length-by-width face, empty exactly when one of its sides is. */
  function SurfaceA(b: PresentBox): (a: nat)
    ensures a == 0 <==> b.length == 0 || b.width == 0
    ensures b.width > 0 ==> b.length <= a
    ensures b.length > 0 ==> b.width <= a
  {
    b.length * b.width
  }

  /** `get_surface_b`: the width-by-height face. */
  function SurfaceB(b: PresentBox): (a: nat)
    ensures a == 0 <==> b.width == 0 || b.height == 0
    ensures b.height > 0 ==> b.width <= a
    ensures b.width > 0 ==> b.height <= a
  {
    b.width * b.height
  }

  /** `get_surface_c`: the height-by-length face. */
  function SurfaceC(b: PresentBox): (a: nat)
    ensures a == 0 <==> b.height == 0 || b.length == 0
    ensures b.length > 0 ==> b.height <= a
    ensures b.height > 0 ==> b.length <= a
  {
    b.height * b.length
  }

  /** Each face area fits in `u32`, as `get_surface_a`..`c` need. */
  predicate FacesFit(b: PresentBox) {
    SurfaceA(b) <= U32Max && SurfaceB(b) <= U32Max && SurfaceC(b) <= U32Max
  }

  /** `get_smallest_face`: the least of the three face areas. */
  function SmallestFace(b: PresentBox): (f: nat)
    requires FacesFit(b)
    ensures f <= SurfaceA(b) && f <= SurfaceB(b) && f <= SurfaceC(b)
    ensures f == SurfaceA(b) || f == SurfaceB(b) || f == SurfaceC(b)
  {
    if SurfaceA(b) <= SurfaceB(b) && SurfaceA(b) <= SurfaceC(b) then SurfaceA(b)
    else if SurfaceB(b) <= SurfaceC(b) then SurfaceB(b)
    else SurfaceC(b)
  }

  /** The surface area fits in `u32`. */
  predicate SurfaceFits(b: PresentBox) {
    SurfaceA(b) * 2 + SurfaceB(b) * 2 + SurfaceC(b) * 2 <= U32Max
  }

  /** `get_surface_area`: twice the sum of the three faces. */
  function SurfaceArea(b: PresentBox): (area: nat)
    requires SurfaceFits(b)
    ensures FacesFit(b) && 6 * SmallestFace(b) <= area
    ensures area % 2 == 0
  {
    SurfaceA(b) * 2 + SurfaceB(b) * 2 + SurfaceC(b) * 2
  }

  /** The paper needed fits in `u32`. */
  predicate PaperFits(b: PresentBox) {
    SurfaceFits(b) && SurfaceA(b) * 2 + SurfaceB(b) * 2 + SurfaceC(b) * 2 + SmallestFace(b) <= U32Max
  }

  /** `get_surface_area_extra`: the surface plus the smallest face as slack. */
  function SurfaceAreaExtra(b: PresentBox): (paper: nat)
    requires PaperFits(b)
    ensures SurfaceArea(b) < paper || b.length * b.width * b.height == 0
  {
    SurfaceArea(b) + SmallestFace(b)
  }

  /** The same box turned around: the dimensions rotated by one place. */
  function Rotated(b: PresentBox): PresentBox {
    PresentBox(b.width, b.height, b.length)
  }

  /** The same box turned over: length and width swapped. */
  function Swapped(b: PresentBox): PresentBox {
    PresentBox(b.width, b.length, b.height)
  }

  /** Turning a box around or over only permutes its faces. */
  lemma FacesPermuted(b: PresentBox)
    ensures SurfaceA(Rotated(b)) == SurfaceB(b) && SurfaceB(Rotated(b)) == SurfaceC(b) && SurfaceC(Rotated(b)) == SurfaceA(b)
    ensures SurfaceA(Swapped(b)) == SurfaceA(b) && SurfaceB(Swapped(b)) == SurfaceC(b) && SurfaceC(Swapped(b)) == SurfaceB(b)
  {
    assert b.height * b.width == b.width * b.height;
    assert b.length * b.height == b.height * b.length;
    assert b.width * b.length == b.length * b.width;
  }

  /**
   * None of the measures depends on the order the dimensions are written
   * in; rotations and swaps together reach every order.
   */
  lemma OrderFree(b: PresentBox)
    requires PaperFits(b)
    ensures PaperFits(Rotated(b)) && PaperFits(Swapped(b))
    ensures SmallestFace(Rotated(b)) == SmallestFace(b) == SmallestFace(Swapped(b))
    ensures SurfaceArea(Rotated(b)) == SurfaceArea(b) == SurfaceArea(Swapped(b))
    ensures SurfaceAreaExtra(Rotated(b)) == SurfaceAreaExtra(b) == SurfaceAreaExtra(Swapped(b))
  {
    FacesPermuted(b);
  }

  /** The areas of the source's tests: 52 and 58 for 2x3x4, 43 for 1x1x10, and 6 as the smallest face in every order. */
  lemma AreaExamples()
    ensures PaperFits(PresentBox(2, 3, 4)) && SurfaceArea(PresentBox(2, 3, 4)) == 52
    ensures SmallestFace(PresentBox(2, 3, 4)) == 6 && SmallestFace(PresentBox(3, 4, 2)) == 6
    ensures SmallestFace(PresentBox(4, 2, 3)) == 6 && SmallestFace(PresentBox(4, 3, 2)) == 6
    ensures SurfaceAreaExtra(PresentBox(2, 3, 4)) == 58
    ensures PaperFits(PresentBox(1, 1, 10)) && SurfaceAreaExtra(PresentBox(1, 1, 10)) == 43
  {
  }
}
