/** The tile picker of the Quick Paint panel
    (quickpaint/ui/tile_picker_canvas.py): a fixed layout of terrain and
    slope positions, the click that picks a position, the completeness
    indicator, clearing every assignment, and the cells a drawn slope
    occupies. Rendering is not modelled. */
module TilePicker {
  import opened Common
  import opened Tiles
  import opened Brush
  import Widget
  import SlopeShapes

  /** A grid cell, (column, row). */
  type Cell = (int, int)

  const N: Option<string> := None

  function S(t: string): Option<string> {
    Some(t)
  }

  /** `TERRAIN_LAYOUT`, keeping the position type of each cell (its object
      name is always the same string). */
  const Layout: seq<seq<Option<string>>> := [
    [S("top_left"), S("top"), S("top"), S("top"), S("top"), S("top_right"), S("slope_top_1x1_left"), S("slope_top_1x1_right"), S("slope_top_4x1_left"), S("floor_covered"), S("floor_covered"), S("floor_covered"), S("slope_top_4x1_right"), S("floor_covered"), S("floor_covered"), S("floor_covered")],
    [S("left"), S("center"), S("center"), S("center"), S("center"), S("right"), S("floor_covered"), S("floor_covered"), S("floor_covered"), S("floor_covered"), S("floor_covered"), S("floor_covered"), S("floor_covered"), S("floor_covered"), S("floor_covered"), S("floor_covered")],
    [S("left"), S("inner_bottom_left"), S("bottom"), S("bottom"), S("inner_bottom_right"), S("right"), N, N, N, N, N, N, N, N, N, N, N, N, N, N, N, N, N, N, N, N],
    [S("left"), S("right"), N, N, S("left"), S("right"), S("slope_bottom_1x1_left"), S("slope_bottom_1x1_right"), S("slope_bottom_4x1_left"), S("floor_covered"), S("floor_covered"), S("floor_covered"), S("slope_bottom_4x1_right"), S("floor_covered"), S("floor_covered"), S("floor_covered")],
    [S("left"), S("right"), N, N, S("left"), S("right"), S("floor_covered"), S("floor_covered"), S("floor_covered"), S("floor_covered"), S("floor_covered"), S("floor_covered"), S("floor_covered"), S("floor_covered"), S("floor_covered"), S("floor_covered")],
    [S("left"), S("inner_top_left"), S("top"), S("top"), S("inner_top_right"), S("right"), N, N, N, N, N, N, N, N, N, N, N, N, N, N, N, N, N, N, N, N],
    [S("left"), S("center"), S("center"), S("center"), S("center"), S("right"), S("slope_top_2x1_left"), S("floor_covered"), S("slope_top_2x1_right"), S("floor_covered"), S("slope_bottom_2x1_left"), S("floor_covered"), S("slope_bottom_2x1_right"), S("floor_covered"), N, N],
    [S("bottom_left"), S("bottom"), S("bottom"), S("bottom"), S("bottom"), S("bottom_right"), S("floor_covered"), S("floor_covered"), S("floor_covered"), S("floor_covered"), S("floor_covered"), S("floor_covered"), S("floor_covered"), S("floor_covered"), N, N]
  ]

  /** `get_grid_dimensions`: the length of the first row and the number of
      rows. */
  function GridDimensions(): (r: (nat, nat))
  {
    (|Layout[0]|, |Layout|)
  }

  /** The grid is 16 by 8 although the third and sixth rows are 26 long;
      their cells past the sixteenth are all empty, so nothing outside the
      reported grid is lost. */
  lemma LayoutShape()
    ensures GridDimensions() == (16, 8)
    ensures |Layout[2]| == 26 && |Layout[5]| == 26
    ensures forall y :: 0 <= y < 8 && y != 2 && y != 5 ==> |Layout[y]| == 16
    ensures forall y, x :: 0 <= y < 8 && 16 <= x < |Layout[y]| ==> Layout[y][x].None?
  {
  }

  /** The second `mousePressEvent`, from the click's scene position in
      pixels: the position type of the 24-pixel cell hit, or None when
      there is no brush, the cell is outside the reported grid, or it is
      empty. */
  function ClickCell(hasBrush: bool, sx: int, sy: int): (r: Option<string>)
    ensures r.Some? ==> hasBrush && 0 <= sx < 16 * 24 && 0 <= sy < 8 * 24
    ensures r.Some? ==> Layout[sy / 24][sx / 24] == r
  {
    LayoutShape();
    var (w, h) := GridDimensions();
    var gx := sx / 24;
    var gy := sy / 24;
    if !hasBrush || gx < 0 || gx >= w || gy < 0 || gy >= h then None
    else if gy >= |Layout| || gx >= |Layout[gy]| then None
    else Layout[gy][gx]
  }

  /** A cell of each terrain position, in `TerrainKeys` order, and of each
      slope type, in `SlopeKeys` order. */
  const TerrainCells: seq<Cell> := [
    (1, 1), (1, 0), (2, 2), (0, 1), (5, 1), (0, 0), (5, 0), (0, 7), (5, 7),
    (1, 5), (4, 5), (1, 2), (4, 2)]
  const SlopeCells: seq<Cell> := [
    (6, 0), (7, 0), (6, 6), (8, 6), (8, 0), (12, 0),
    (6, 3), (7, 3), (10, 6), (12, 6), (8, 3), (12, 3)]

  /** Every terrain position can be picked by a click on the grid. */
  lemma EveryTerrainClickable()
    ensures forall i :: 0 <= i < |TerrainKeys| ==>
      ClickCell(true, TerrainCells[i].0 * 24, TerrainCells[i].1 * 24) == Some(TerrainKeys[i])
  {
  }

  /** So can every slope type. */
  lemma EverySlopeClickable()
    ensures forall i :: 0 <= i < |SlopeKeys| ==>
      ClickCell(true, SlopeCells[i].0 * 24, SlopeCells[i].1 * 24) == Some(SlopeKeys[i])
  {
  }

  /** A click reports a terrain position, a slope type, or "floor_covered"
      (the cells under a slope picture). */
  lemma ClickedTypes(hasBrush: bool, sx: int, sy: int)
    ensures var r := ClickCell(hasBrush, sx, sy);
      r.Some? ==> PickerType(r.value)
  {
    var r := ClickCell(hasBrush, sx, sy);
    if r.Some? {
      RowTypes(sy / 24);
    }
  }

  /** Handing "floor_covered" to the panel changes no brush. */
  lemma FloorClickChangesNothing(s: BrushState, id: int)
    requires WellFormed(s)
    ensures Widget.AssignTile(s, "floor_covered", id) == s
  {
    assert !IsTerrain("floor_covered") && !IsSlope("floor_covered");
    Widget.AssignTileEffect(s, "floor_covered", id);
  }

  /** A known name, or the filler under slope pictures. */
  predicate PickerType(t: string) {
    IsTerrain(t) || IsSlope(t) || t == "floor_covered"
  }

  lemma RowTypes(y: int)
    requires 0 <= y < |Layout|
    ensures forall x :: 0 <= x < |Layout[y]| && Layout[y][x].Some? ==> PickerType(Layout[y][x].value)
  {
    var row := Layout[y];
    forall x | 0 <= x < |row| && row[x].Some?
      ensures PickerType(row[x].value)
    {
      if y == 0 {
        assert PickerType(row[x].value);
      } else if y == 1 {
        assert PickerType(row[x].value);
      } else if y == 2 {
        assert PickerType(row[x].value);
      } else if y == 3 {
        assert PickerType(row[x].value);
      } else if y == 4 {
        assert PickerType(row[x].value);
      } else if y == 5 {
        assert PickerType(row[x].value);
      } else if y == 6 {
        assert PickerType(row[x].value);
      } else {
        assert PickerType(row[x].value);
      }
    }
  }

  // ---------------------------------------------------------------------
  // Status indicator
  // ---------------------------------------------------------------------

  /** `update_status_indicator`: green iff every terrain position is
      assigned and, when any slope is enabled, every enabled slope is. */
  predicate StatusComplete(s: BrushState) {
    (forall i :: 0 <= i < |TerrainKeys| ==> TerrainKeys[i] in s.terrainAssigned)
    && (if s.enabledSlopes != {} then forall k :: k in s.enabledSlopes ==> k in s.slopesAssigned else true)
  }

  /** The rule in terms of the vocabulary: all 13 positions assigned and the
      enabled slopes a subset of the assigned ones (vacuous when none is
      enabled). */
  lemma StatusMeaning(s: BrushState)
    ensures StatusComplete(s) <==>
      (forall t :: IsTerrain(t) ==> t in s.terrainAssigned) && s.enabledSlopes <= s.slopesAssigned
  {
  }

  /** Assigning tiles never turns the indicator red, and neither does
      unticking slopes. */
  lemma StatusMonotone(s: BrushState, position: string, id: int, ticked: set<string>)
    requires StatusComplete(s)
    ensures StatusComplete(Widget.AssignTile(s, position, id))
    ensures ticked <= s.enabledSlopes ==> StatusComplete(Widget.PruneSlopes(s, ticked))
  {
    StatusMeaning(s);
    StatusMeaning(Widget.AssignTile(s, position, id));
    StatusMeaning(Widget.PruneSlopes(s, ticked));
  }

  /** A new brush enables every slope and assigns nothing: red. */
  lemma NewBrushIncomplete(name: string, tilesetNames: seq<string>, slot: string, mode: string)
    ensures !StatusComplete(NewState(name, tilesetNames, slot, mode))
  {
    assert TerrainKeys[0] !in NewState(name, tilesetNames, slot, mode).terrainAssigned;
  }

  // ---------------------------------------------------------------------
  // Clearing
  // ---------------------------------------------------------------------

  /** The table with the keys `ks` set to None (added when missing). */
  function ClearIds(t: Table, ks: set<string>): (r: Table)
  {
    map k | k in t.Keys + ks :: if k in ks then None else t[k]
  }

  /** The brush after `clear_all_tiles`. */
  function Cleared(s: BrushState): (r: BrushState)
  {
    s.(terrain := ClearIds(s.terrain, set k | k in TerrainKeys), terrainAssigned := {},
       slopes := ClearIds(s.slopes, s.slopes.Keys), slopesAssigned := {})
  }

  /** Clearing empties every slot and both assigned sets, keeps the enabled
      slopes and the rest of the brush, keeps a brush well formed, is
      idempotent, and always leaves the indicator red. */
  lemma ClearedEffect(s: BrushState)
    ensures var r := Cleared(s);
      (forall k :: IsTerrain(k) ==> Lookup(r.terrain, k).None?)
      && (forall k :: Lookup(r.slopes, k).None?)
      && r.terrainAssigned == {} && r.slopesAssigned == {}
      && r.enabledSlopes == s.enabledSlopes && r.name == s.name && r.slot == s.slot
      && r.tilesetNames == s.tilesetNames && r.mode == s.mode && r.priority == s.priority
      && Cleared(r) == r && !StatusComplete(r)
    ensures WellFormed(s) ==> WellFormed(Cleared(s)) && forall k :: Lookup(Cleared(s).terrain, k).None?
  {
    var r := Cleared(s);
    assert TerrainKeys[0] !in r.terrainAssigned;
    assert ClearIds(r.terrain, set k | k in TerrainKeys) == r.terrain;
    assert ClearIds(r.slopes, r.slopes.Keys) == r.slopes;
  }

  /** Clearing one more key is one table write. */
  lemma ClearOneMore(t: Table, ks: set<string>, k: string)
    ensures ClearIds(t, ks + {k}) == ClearIds(t, ks)[k := None]
  {
  }

  /** The first loop of `clear_all_tiles`, over the 13 terrain names. */
  method ClearTerrainIds(b: SmartBrush)
    modifies b
    ensures b.State() == old(b.State()).(terrain := ClearIds(old(b.terrain), set k | k in TerrainKeys))
  {
    ghost var s0 := b.State();
    var i := 0;
    while i < |TerrainKeys|
      invariant 0 <= i <= |TerrainKeys|
      invariant b.State() == s0.(terrain := ClearIds(s0.terrain, set j | 0 <= j < i :: TerrainKeys[j]))
    {
      ClearOneMore(s0.terrain, set j | 0 <= j < i :: TerrainKeys[j], TerrainKeys[i]);
      assert (set j | 0 <= j < i + 1 :: TerrainKeys[j]) == (set j | 0 <= j < i :: TerrainKeys[j]) + {TerrainKeys[i]};
      b.terrain := b.terrain[TerrainKeys[i] := None];
      i := i + 1;
    }
    assert (set j | 0 <= j < i :: TerrainKeys[j]) == set k | k in TerrainKeys;
  }

  /** The second loop, over the slope table's own keys. */
  method ClearSlopeIds(b: SmartBrush)
    modifies b
    ensures b.State() == old(b.State()).(slopes := ClearIds(old(b.slopes), old(b.slopes).Keys))
  {
    ghost var s0 := b.State();
    var keys := b.slopes.Keys;
    var rest := keys;
    while rest != {}
      invariant rest <= keys
      invariant b.State() == s0.(slopes := ClearIds(s0.slopes, keys - rest))
      decreases |rest|
    {
      var k :| k in rest;
      ClearOneMore(s0.slopes, keys - rest, k);
      assert keys - (rest - {k}) == (keys - rest) + {k};
      b.slopes := b.slopes[k := None];
      rest := rest - {k};
    }
  }

  /** The canvas's state: the brush it edits and `tile_map`, from grid cell
      to the (object id, type) drawn there. */
  class TilePickerCanvas {
    var brush: SmartBrush?
    var tileMap: map<Cell, (int, string)>

    constructor (brush: SmartBrush?)
      ensures this.brush == brush && tileMap == map[]
    {
      this.brush := brush;
      tileMap := map[];
    }

    /** `clear_all_tiles`; nothing happens without a brush. */
    method ClearAllTiles()
      modifies brush
      ensures brush != null ==> brush.State() == Cleared(old(brush.State()))
    {
      if brush == null {
        return;
      }
      ClearTerrainIds(brush);
      brush.terrainAssigned := {};
      ClearSlopeIds(brush);
      brush.slopesAssigned := {};
    }

    /** The footprint marking of `update_canvas_display` for one slope drawn
        with its top-left corner at (gx, gy); its local size rule is the
        engine's `SlopeDimensions`. */
    method MarkSlope(gx: int, gy: int, id: int, slope: string)
      modifies this
      ensures brush == old(brush)
      ensures var (w, h) := SlopeShapes.SlopeDimensions(slope);
        (forall c :: c in tileMap <==> c in old(tileMap) || InFootprint(c, gx, gy, w, h))
        && (forall c :: InFootprint(c, gx, gy, w, h) ==> tileMap[c] == (id, slope))
        && (forall c :: c in old(tileMap) && !InFootprint(c, gx, gy, w, h) ==> tileMap[c] == old(tileMap)[c])
    {
      tileMap := tileMap[(gx, gy) := (id, slope)];
      var (w, h) := SlopeShapes.SlopeDimensions(slope);
      ghost var m0 := old(tileMap);
      var dy := 0;
      while dy < h
        invariant 0 <= dy <= h
        invariant brush == old(brush)
        invariant forall c :: c in tileMap <==> c in m0 || c == (gx, gy) || InFootprint(c, gx, gy, w, dy)
        invariant forall c :: InFootprint(c, gx, gy, w, dy) || c == (gx, gy) ==> tileMap[c] == (id, slope)
        invariant forall c :: c in m0 && !InFootprint(c, gx, gy, w, dy) && c != (gx, gy) ==> tileMap[c] == m0[c]
      {
        MarkRow(gx, gy + dy, w, id, slope);
        dy := dy + 1;
      }
    }

    /** The inner loop of the footprint marking: the first `w` cells of row `y` from column `gx`. */
    method MarkRow(gx: int, y: int, w: int, id: int, slope: string)
      modifies this
      ensures brush == old(brush)
      ensures forall c :: c in tileMap <==> c in old(tileMap) || InRow(c, gx, y, w)
      ensures forall c :: InRow(c, gx, y, w) ==> tileMap[c] == (id, slope)
      ensures forall c :: c in old(tileMap) && !InRow(c, gx, y, w) ==> tileMap[c] == old(tileMap)[c]
    {
      ghost var m0 := tileMap;
      var dx := 0;
      while dx < w
        invariant 0 <= dx && (dx <= w || dx == 0)
        invariant brush == old(brush)
        invariant forall c :: c in tileMap <==> c in m0 || InRow(c, gx, y, dx)
        invariant forall c :: InRow(c, gx, y, dx) ==> tileMap[c] == (id, slope)
        invariant forall c :: c in m0 && !InRow(c, gx, y, dx) ==> tileMap[c] == m0[c]
      {
        tileMap := tileMap[(gx + dx, y) := (id, slope)];
        dx := dx + 1;
      }
    }
  }

  /** `c` lies in the w×h block whose top-left cell is (gx, gy). */
  predicate InFootprint(c: Cell, gx: int, gy: int, w: int, h: int) {
    gx <= c.0 < gx + w && gy <= c.1 < gy + h
  }

  /** `c` is one of the first `n` cells of row `y` from column `gx`. */
  predicate InRow(c: Cell, gx: int, y: int, n: int) {
    c.1 == y && gx <= c.0 < gx + n
  }
}
