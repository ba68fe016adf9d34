/** The slope vocabulary of the painting engine: the engine builds every slope
    type it previews or commits as `slope_{category}_{size}_{side}`, so it is
    modelled here by its three parts, with `Name` giving the brush key. The
    size rule `SlopeDimensions` works on any string, as the source's does. */
module SlopeShapes {
  import opened Common
  import opened PyStr
  import opened Tiles

  datatype SlopeSize = OneByOne | TwoByOne | FourByOne

  function SizeName(z: SlopeSize): string {
    match z
    case OneByOne => "1x1"
    case TwoByOne => "2x1"
    case FourByOne => "4x1"
  }

  /** Width in tiles of each size (`{'1x1': 1, '2x1': 2, '4x1': 4}`). */
  function SizeWidth(z: SlopeSize): (w: nat)
    ensures w == 1 || w == 2 || w == 4
  {
    match z
    case OneByOne => 1
    case TwoByOne => 2
    case FourByOne => 4
  }

  /** `top` is the ground category ('top'), otherwise ceiling ('bottom');
      `left` is the ascending side ('left'), otherwise 'right'. */
  datatype SlopeShape = SlopeShape(top: bool, size: SlopeSize, left: bool)

  function Prefix(top: bool): string {
    "slope_" + (if top then "top" else "bottom") + "_"
  }

  function Suffix(left: bool): string {
    "_" + (if left then "left" else "right")
  }

  /** The brush key of a slope shape. */
  function Name(s: SlopeShape): string {
    Prefix(s.top) + SizeName(s.size) + Suffix(s.left)
  }

  /** Where a shape's key sits in the brush's slope list. */
  function ShapeIndex(s: SlopeShape): nat {
    (if s.top then 0 else 6) + 2 * SizeIndex(s.size) + (if s.left then 0 else 1)
  }

  function SizeIndex(z: SlopeSize): nat {
    match z
    case OneByOne => 0
    case TwoByOne => 1
    case FourByOne => 2
  }

  /** Every shape names one of the brush's 12 slope keys, the one at
      `ShapeIndex`. */
  lemma NameIsSlope(s: SlopeShape)
    ensures ShapeIndex(s) < 12 && Name(s) == SlopeKeys[ShapeIndex(s)]
    ensures IsSlope(Name(s))
  {
    match s.size
    case OneByOne => if s.top { TopOneByOneIsSlope(s); } else { BottomOneByOneIsSlope(s); }
    case TwoByOne => if s.top { TopTwoByOneIsSlope(s); } else { BottomTwoByOneIsSlope(s); }
    case FourByOne => if s.top { TopFourByOneIsSlope(s); } else { BottomFourByOneIsSlope(s); }
  }

  lemma TopOneByOneIsSlope(s: SlopeShape)
    requires s.size == OneByOne && s.top
    ensures ShapeIndex(s) < 12 && Name(s) == SlopeKeys[ShapeIndex(s)]
  {
    if s.left { assert Name(s) == "slope_top_1x1_left" == SlopeKeys[0]; }
    else { assert Name(s) == "slope_top_1x1_right" == SlopeKeys[1]; }
  }

  lemma BottomOneByOneIsSlope(s: SlopeShape)
    requires s.size == OneByOne && !s.top
    ensures ShapeIndex(s) < 12 && Name(s) == SlopeKeys[ShapeIndex(s)]
  {
    if s.left { assert Name(s) == "slope_bottom_1x1_left" == SlopeKeys[6]; }
    else { assert Name(s) == "slope_bottom_1x1_right" == SlopeKeys[7]; }
  }

  lemma TopTwoByOneIsSlope(s: SlopeShape)
    requires s.size == TwoByOne && s.top
    ensures ShapeIndex(s) < 12 && Name(s) == SlopeKeys[ShapeIndex(s)]
  {
    if s.left { assert Name(s) == "slope_top_2x1_left" == SlopeKeys[2]; }
    else { assert Name(s) == "slope_top_2x1_right" == SlopeKeys[3]; }
  }

  lemma BottomTwoByOneIsSlope(s: SlopeShape)
    requires s.size == TwoByOne && !s.top
    ensures ShapeIndex(s) < 12 && Name(s) == SlopeKeys[ShapeIndex(s)]
  {
    if s.left { assert Name(s) == "slope_bottom_2x1_left" == SlopeKeys[8]; }
    else { assert Name(s) == "slope_bottom_2x1_right" == SlopeKeys[9]; }
  }

  lemma TopFourByOneIsSlope(s: SlopeShape)
    requires s.size == FourByOne && s.top
    ensures ShapeIndex(s) < 12 && Name(s) == SlopeKeys[ShapeIndex(s)]
  {
    if s.left { assert Name(s) == "slope_top_4x1_left" == SlopeKeys[4]; }
    else { assert Name(s) == "slope_top_4x1_right" == SlopeKeys[5]; }
  }

  lemma BottomFourByOneIsSlope(s: SlopeShape)
    requires s.size == FourByOne && !s.top
    ensures ShapeIndex(s) < 12 && Name(s) == SlopeKeys[ShapeIndex(s)]
  {
    if s.left { assert Name(s) == "slope_bottom_4x1_left" == SlopeKeys[10]; }
    else { assert Name(s) == "slope_bottom_4x1_right" == SlopeKeys[11]; }
  }

  /** `p` occurs in `s` starting at index `i`. */
  predicate OccursAt(s: string, p: string, i: int) {
    0 <= i <= |s| - |p| && s[i..i + |p|] == p
  }

  /** `p in s` holds exactly when `p` occurs at some index of `s`. */
  lemma {:induction false} ContainsAt(s: string, p: string)
    ensures Contains(s, p) <==> exists i :: OccursAt(s, p, i)
    decreases |s|
  {
    if StartsWith(s, p) {
      assert OccursAt(s, p, 0);
    } else if |s| > 0 {
      ContainsAt(s[1..], p);
      if Contains(s[1..], p) {
        var i :| OccursAt(s[1..], p, i);
        assert s[i + 1..i + 1 + |p|] == s[1..][i..i + |p|];
        assert OccursAt(s, p, i + 1);
      }
      if exists i :: OccursAt(s, p, i) {
        var i :| OccursAt(s, p, i);
        assert i != 0;
        assert s[1..][i - 1..i - 1 + |p|] == s[i..i + |p|];
        assert OccursAt(s[1..], p, i - 1);
      }
    } else {
      assert |p| > 0;
    }
  }

  /** The only 'x' of a slope name is the one inside its size part. */
  lemma OnlyX(s: SlopeShape)
    ensures forall k :: 0 <= k < |Name(s)| && Name(s)[k] == 'x' ==> k == |Prefix(s.top)| + 1
  {
    var a, m, b := Prefix(s.top), SizeName(s.size), Suffix(s.left);
    assert Name(s) == a + m + b;
    assert 'x' !in a && 'x' !in b;
    forall k | 0 <= k < |Name(s)| && k != |a| + 1 ensures Name(s)[k] != 'x' {
      if k < |a| {
        assert Name(s)[k] == a[k];
      } else if k >= |a| + |m| {
        assert Name(s)[k] == b[k - |a| - |m|];
      } else {
        assert Name(s)[k] == m[k - |a|];
      }
    }
  }

  /** A size name occurs in a slope name exactly when it is that shape's size. */
  lemma SizeOccurs(s: SlopeShape, z: SlopeSize)
    ensures Contains(Name(s), SizeName(z)) <==> s.size == z
  {
    var n, a := Name(s), Prefix(s.top);
    ContainsAt(n, SizeName(z));
    assert n == a + SizeName(s.size) + Suffix(s.left);
    assert n[|a|..|a| + 3] == SizeName(s.size);
    assert OccursAt(n, SizeName(s.size), |a|);
    if Contains(n, SizeName(z)) {
      var i :| OccursAt(n, SizeName(z), i);
      assert n[i + 1] == SizeName(z)[1] == 'x';
      OnlyX(s);
      assert SizeName(s.size) == SizeName(z);
    }
  }

  /** `_get_slope_dimensions` (the later of its two definitions in the
      engine, and the same rule as the tile picker's): width from the first
      size name the string contains, height 2, and (1, 2) when it contains
      none of them. */
  function SlopeDimensions(t: string): (r: (int, int))
    ensures r.1 == 2 && (r.0 == 1 || r.0 == 2 || r.0 == 4)
    ensures Contains(t, "1x1") ==> r.0 == 1
    ensures !Contains(t, "1x1") && Contains(t, "2x1") ==> r.0 == 2
  {
    if Contains(t, "1x1") then (1, 2)
    else if Contains(t, "2x1") then (2, 2)
    else if Contains(t, "4x1") then (4, 2)
    else (1, 2)
  }

  /** For the names the engine builds, the string rule gives the shape's
      width and height 2. */
  lemma DimensionsOfName(s: SlopeShape)
    ensures SlopeDimensions(Name(s)) == (SizeWidth(s.size), 2)
  {
    SizeOccurs(s, OneByOne);
    SizeOccurs(s, TwoByOne);
    SizeOccurs(s, FourByOne);
  }

  /** The cells of a slope placed with its top-left at `origin`. */
  predicate InFootprint(c: Pos, s: SlopeShape, origin: Pos) {
    origin.0 <= c.0 < origin.0 + SizeWidth(s.size) && origin.1 <= c.1 < origin.1 + 2
  }
}
