/** The terrain-aware helpers of the painting engine: pure geometry over
    edge and corner tile types (`_are_perpendicular`, `_are_parallel`,
    `_find_corner_position`, `_determine_corner_type_from_edges`,
    `_determine_corner_for_endpoint`, `_get_border_directions`,
    `_has_border_facing`, `_get_border_direction`, `_find_corner_gap`,
    `_determine_corner_type`) and the neighbour scans built on them
    (`_check_existing_terrain`, `_check_corner_connections`). */
module TerrainAware {
  import opened Common

  /** A vector `(dx, dy)`; `(0, -1)` points up. */
  type Vec = (int, int)

  predicate IsHorizontalEdge(t: string) {
    t == "top" || t == "bottom"
  }

  predicate IsVerticalEdge(t: string) {
    t == "left" || t == "right"
  }

  predicate IsEdge(t: string) {
    IsHorizontalEdge(t) || IsVerticalEdge(t)
  }

  /** `_are_perpendicular`: one horizontal and one vertical edge type. */
  predicate ArePerpendicular(t1: string, t2: string) {
    (IsHorizontalEdge(t1) && IsVerticalEdge(t2)) || (IsVerticalEdge(t1) && IsHorizontalEdge(t2))
  }

  /** `_are_parallel`: two horizontal or two vertical edge types. */
  predicate AreParallel(t1: string, t2: string) {
    (IsHorizontalEdge(t1) && IsHorizontalEdge(t2)) || (IsVerticalEdge(t1) && IsVerticalEdge(t2))
  }

  /** Both relations are symmetric and exclusive, and between two edge types
      exactly one holds; only edge types are parallel to themselves. */
  lemma EdgeRelations(t1: string, t2: string)
    ensures ArePerpendicular(t1, t2) == ArePerpendicular(t2, t1)
    ensures AreParallel(t1, t2) == AreParallel(t2, t1)
    ensures !(ArePerpendicular(t1, t2) && AreParallel(t1, t2))
    ensures IsEdge(t1) && IsEdge(t2) ==> ArePerpendicular(t1, t2) != AreParallel(t1, t2)
    ensures !IsEdge(t1) ==> !ArePerpendicular(t1, t2) && !AreParallel(t1, t2)
    ensures AreParallel(t1, t1) <==> IsEdge(t1)
  {
  }

  /** `_find_corner_position`: where a horizontal and a vertical edge line
      meet; None unless the two types are perpendicular. */
  function FindCornerPosition(first: Pos, firstType: string, last: Pos, lastType: string): (r: Option<Pos>)
    ensures r.Some? <==> ArePerpendicular(firstType, lastType)
    ensures r.Some? ==>
              var (h, v) := if IsHorizontalEdge(firstType) then (first, last) else (last, first);
              r.value == (v.0, h.1)
  {
    if IsHorizontalEdge(firstType) && IsVerticalEdge(lastType) then Some((last.0, first.1))
    else if IsVerticalEdge(firstType) && IsHorizontalEdge(lastType) then Some((first.0, last.1))
    else None
  }

  /** `_determine_corner_type_from_edges`: compares the set of the two types
      against the four corner pairs. */
  function CornerTypeFromEdges(t1: string, t2: string): Option<string> {
    var types := {t1, t2};
    if types == {"top", "left"} then Some("top_left")
    else if types == {"top", "right"} then Some("top_right")
    else if types == {"bottom", "left"} then Some("bottom_left")
    else if types == {"bottom", "right"} then Some("bottom_right")
    else None
  }

  /** The outer corner joining a horizontal edge `h` and a vertical edge
      `v` is named `h_v`. */
  function CornerName(h: string, v: string): string {
    h + "_" + v
  }

  /** The four outer-corner names and the four inner ones. */
  lemma CornerNames()
    ensures CornerName("top", "left") == "top_left" && CornerName("top", "right") == "top_right"
    ensures CornerName("bottom", "left") == "bottom_left" && CornerName("bottom", "right") == "bottom_right"
    ensures "inner_" + CornerName("top", "left") == "inner_top_left"
    ensures "inner_" + CornerName("top", "right") == "inner_top_right"
    ensures "inner_" + CornerName("bottom", "left") == "inner_bottom_left"
    ensures "inner_" + CornerName("bottom", "right") == "inner_bottom_right"
  {
  }

  predicate IsOuterCorner(t: string) {
    t == "top_left" || t == "top_right" || t == "bottom_left" || t == "bottom_right"
  }

  /** Set comparison agrees with naming: two types have a corner exactly
      when they are perpendicular, the corner is named horizontal part
      first, and the order of the arguments does not matter. */
  lemma CornerFromEdgesMeaning(t1: string, t2: string)
    ensures CornerTypeFromEdges(t1, t2) == CornerTypeFromEdges(t2, t1)
    ensures CornerTypeFromEdges(t1, t2).Some? <==> ArePerpendicular(t1, t2)
    ensures IsHorizontalEdge(t1) && IsVerticalEdge(t2) ==> CornerTypeFromEdges(t1, t2) == Some(CornerName(t1, t2))
  {
    var types := {t1, t2};
    CornerNames();
    if ArePerpendicular(t1, t2) {
      if IsHorizontalEdge(t1) {
        assert types == {t1, t2};
      }
    } else {
      assert "top" !in types || "left" !in types;
      assert "top" !in types || "right" !in types;
      assert "bottom" !in types || "left" !in types;
      assert "bottom" !in types || "right" !in types;
    }
  }

  /** `_determine_corner_type`: membership tests on the set of the two
      types; the positions are not consulted. */
  function DetermineCornerType(t1: string, t2: string, p1: Pos, p2: Pos): Option<string> {
    var types := {t1, t2};
    if "top" in types && "left" in types then Some("top_left")
    else if "top" in types && "right" in types then Some("top_right")
    else if "bottom" in types && "left" in types then Some("bottom_left")
    else if "bottom" in types && "right" in types then Some("bottom_right")
    else None
  }

  /** The two corner functions agree on every input. */
  lemma CornerFunctionsAgree(t1: string, t2: string, p1: Pos, p2: Pos)
    ensures DetermineCornerType(t1, t2, p1, p2) == CornerTypeFromEdges(t1, t2)
  {
    var types := {t1, t2};
    if "top" in types && "left" in types {
      assert types == {"top", "left"};
    } else if "top" in types && "right" in types {
      assert types == {"top", "right"};
    } else if "bottom" in types && "left" in types {
      assert types == {"bottom", "left"};
    } else if "bottom" in types && "right" in types {
      assert types == {"bottom", "right"};
    } else {
      assert "top" !in types || "left" !in types;
      assert types != {"top", "left"} && types != {"top", "right"};
      assert types != {"bottom", "left"} && types != {"bottom", "right"};
    }
  }

  /** The player side of an edge tile at `a` contains `b`: below a top
      edge, above a bottom edge, right of a left wall, left of a right wall;
      never for any other type. */
  predicate OnInside(t: string, a: Pos, b: Pos) {
    if t == "top" then b.1 > a.1
    else if t == "bottom" then b.1 < a.1
    else if t == "left" then b.0 > a.0
    else if t == "right" then b.0 < a.0
    else false
  }

  /** `mirror` of a side name: left and right swap. */
  function MirrorSide(v: string): string {
    if v == "left" then "right" else if v == "right" then "left" else v
  }

  /** `_determine_corner_for_endpoint`: an outer corner when either edge
      has the other on its player side, otherwise the inner corner with left
      and right swapped; None unless the pair is one of the eight listed
      (horizontal, vertical) orderings. The corner position and the
      `is_last_endpoint` flag do not influence the answer. */
  function CornerForEndpoint(endpointType: string, existingType: string, endpoint: Pos, existing: Pos,
                             corner: Pos, isLast: bool): (r: Option<string>)
    ensures r.Some? <==> ArePerpendicular(endpointType, existingType)
  {
    var check1 := OnInside(existingType, existing, endpoint);
    var check2 := OnInside(endpointType, endpoint, existing);
    var isOuter := check1 || check2;
    var key := (endpointType, existingType);
    if isOuter then
      if key == ("top", "right") || key == ("right", "top") then Some("top_right")
      else if key == ("top", "left") || key == ("left", "top") then Some("top_left")
      else if key == ("bottom", "right") || key == ("right", "bottom") then Some("bottom_right")
      else if key == ("bottom", "left") || key == ("left", "bottom") then Some("bottom_left")
      else None
    else
      if key == ("top", "right") || key == ("right", "top") then Some("inner_top_left")
      else if key == ("top", "left") || key == ("left", "top") then Some("inner_top_right")
      else if key == ("bottom", "right") || key == ("right", "bottom") then Some("inner_bottom_left")
      else if key == ("bottom", "left") || key == ("left", "bottom") then Some("inner_bottom_right")
      else None
  }

  /** The two lookup tables of `_determine_corner_for_endpoint` as one
      rule: the outer corner names the horizontal edge then the vertical
      one; the inner corner is that name with left and right swapped. The
      answer depends on the positions only through the two player-side
      checks. */
  lemma CornerForEndpointMeaning(endpointType: string, existingType: string, endpoint: Pos, existing: Pos,
                                 corner: Pos, isLast: bool)
    requires ArePerpendicular(endpointType, existingType)
    ensures var (h, v) := if IsHorizontalEdge(endpointType) then (endpointType, existingType)
                          else (existingType, endpointType);
            CornerForEndpoint(endpointType, existingType, endpoint, existing, corner, isLast)
              == Some(if OnInside(existingType, existing, endpoint) || OnInside(endpointType, endpoint, existing)
                      then CornerName(h, v) else "inner_" + CornerName(h, MirrorSide(v)))
  {
    CornerNames();
  }

  /** The outward normal of an edge type. */
  function Normal(t: string): Vec
    requires IsEdge(t)
  {
    if t == "top" then (0, -1) else if t == "bottom" then (0, 1) else if t == "left" then (-1, 0) else (1, 0)
  }

  /** `_get_border_directions`: the outward normals of a tile type, one for
      an edge, two (vertical first) for an outer corner, none otherwise. */
  function BorderDirections(t: string): (r: seq<Vec>)
    ensures |r| <= 2
    ensures forall d :: d in r ==> Abs(d.0) + Abs(d.1) == 1
    ensures IsEdge(t) ==> r == [Normal(t)]
    ensures |r| == 2 ==> r[0].0 == 0 && r[1].1 == 0
  {
    if t == "top" then [(0, -1)]
    else if t == "bottom" then [(0, 1)]
    else if t == "left" then [(-1, 0)]
    else if t == "right" then [(1, 0)]
    else if t == "top_left" then [(0, -1), (-1, 0)]
    else if t == "top_right" then [(0, -1), (1, 0)]
    else if t == "bottom_left" then [(0, 1), (-1, 0)]
    else if t == "bottom_right" then [(0, 1), (1, 0)]
    else []
  }

  /** An outer corner faces exactly the directions of its two edges, and
      only edge and outer-corner types face anywhere. */
  lemma CornerFacesBothEdges(h: string, v: string, t: string)
    requires IsHorizontalEdge(h) && IsVerticalEdge(v)
    ensures BorderDirections(CornerName(h, v)) == [Normal(h), Normal(v)]
    ensures BorderDirections(t) != [] <==> IsEdge(t) || IsOuterCorner(t)
  {
    CornerNames();
  }

  /** `_has_border_facing`. */
  predicate HasBorderFacing(t: string, d: Vec) {
    d in BorderDirections(t)
  }

  /** `_get_border_direction`: the normal of an edge type, None for
      anything else (corners included). */
  function BorderDirection(t: string): (r: Option<Vec>)
    ensures r.Some? <==> IsEdge(t)
    ensures r.Some? ==> BorderDirections(t) == [r.value] && forall d :: HasBorderFacing(t, d) <==> d == r.value
  {
    if t == "top" then Some((0, -1))
    else if t == "bottom" then Some((0, 1))
    else if t == "left" then Some((-1, 0))
    else if t == "right" then Some((1, 0))
    else None
  }

  /** `_find_corner_gap`: for two diagonal neighbours, the shared
      neighbour on the horizontal tile's row (or the vertical tile's
      column); None for any other pair. */
  function FindCornerGap(p1: Pos, t1: string, p2: Pos, t2: string): (r: Option<Pos>)
    ensures r.Some? <==> Abs(p1.0 - p2.0) == 1 && Abs(p1.1 - p2.1) == 1
    ensures r.Some? ==> Abs(r.value.0 - p1.0) + Abs(r.value.1 - p1.1) == 1
                        && Abs(r.value.0 - p2.0) + Abs(r.value.1 - p2.1) == 1
    ensures r.Some? && IsHorizontalEdge(t1) ==> r.value.1 == p1.1
    ensures r.Some? && !IsHorizontalEdge(t1) ==> r.value.0 == p1.0
  {
    if Abs(p1.0 - p2.0) == 1 && Abs(p1.1 - p2.1) == 1 then
      if t1 == "top" || t1 == "bottom" then Some((p2.0, p1.1)) else Some((p1.0, p2.1))
    else None
  }

  /** For a perpendicular pair the gap does not depend on which tile comes
      first, and it is where `_find_corner_position` puts the corner. */
  lemma CornerGapSymmetric(p1: Pos, t1: string, p2: Pos, t2: string)
    requires ArePerpendicular(t1, t2)
    ensures FindCornerGap(p1, t1, p2, t2) == FindCornerGap(p2, t2, p1, t1)
    ensures FindCornerGap(p1, t1, p2, t2).Some? ==> FindCornerGap(p1, t1, p2, t2) == FindCornerPosition(p1, t1, p2, t2)
  {
  }
}
