/** The tile-type vocabulary of the Quick Paint Tool: the 13 terrain
    positions and the 12 slope types, in the order the brush's dictionaries
    list them. */
module Tiles {
  import opened Common

  const TerrainKeys: seq<string> := [
    "center", "top", "bottom", "left", "right",
    "top_left", "top_right", "bottom_left", "bottom_right",
    "inner_top_left", "inner_top_right", "inner_bottom_left", "inner_bottom_right"]

  const SlopeKeys: seq<string> := [
    "slope_top_1x1_left", "slope_top_1x1_right", "slope_top_2x1_left", "slope_top_2x1_right",
    "slope_top_4x1_left", "slope_top_4x1_right", "slope_bottom_1x1_left", "slope_bottom_1x1_right",
    "slope_bottom_2x1_left", "slope_bottom_2x1_right", "slope_bottom_4x1_left", "slope_bottom_4x1_right"]

  /** The terrain positions as values; `TerrainName` gives the key the
      brush's dictionary uses for each. */
  datatype Terrain =
    | Center | Top | Bottom | Left | Right
    | TopLeft | TopRight | BottomLeft | BottomRight
    | InnerTopLeft | InnerTopRight | InnerBottomLeft | InnerBottomRight

  function TerrainIndex(t: Terrain): (i: nat)
    ensures i < 13
  {
    match t
    case Center => 0 case Top => 1 case Bottom => 2 case Left => 3 case Right => 4
    case TopLeft => 5 case TopRight => 6 case BottomLeft => 7 case BottomRight => 8
    case InnerTopLeft => 9 case InnerTopRight => 10 case InnerBottomLeft => 11 case InnerBottomRight => 12
  }

  function TerrainName(t: Terrain): (s: string)
    ensures IsTerrain(s)
  {
    TerrainKeys[TerrainIndex(t)]
  }

  /** Different positions have different keys. */
  lemma TerrainNamesDistinct(a: Terrain, b: Terrain)
    ensures TerrainName(a) == TerrainName(b) <==> a == b
  {
    KeysDistinct();
  }

  predicate IsTerrain(t: string) {
    t in TerrainKeys
  }

  predicate IsSlope(t: string) {
    t in SlopeKeys
  }

  /** The two key lists have no repeats and nothing in common. */
  lemma KeysDistinct()
    ensures Distinct(TerrainKeys) && Distinct(SlopeKeys) && |TerrainKeys| == 13 && |SlopeKeys| == 12
    ensures forall t :: IsTerrain(t) ==> !IsSlope(t)
  {
  }
}
