/** The painting modes (modes.py): the smart-paint direction heuristics and
    the direction filter over auto-tiled positions, the smart-paint loop, and
    the eraser's path and rectangle. */
module Modes {
  import opened Common
  import opened Tiles
  import opened Brush
  import opened Grid
  import opened Painter

  // ----- smart paint: direction -----

  /** `determine_initial_direction`: horizontal only when the horizontal
      movement strictly dominates; ties, no movement included, are vertical,
      and a vertical movement that does not go down is bottom-to-top. */
  function InitialDirection(prev: Pos, curr: Pos): (h: Heading)
    ensures (h == LeftToRight || h == RightToLeft) <==> Abs(curr.0 - prev.0) > Abs(curr.1 - prev.1)
    ensures h == LeftToRight ==> curr.0 > prev.0
    ensures h == RightToLeft ==> curr.0 < prev.0
    ensures h == TopToBottom ==> curr.1 > prev.1
    ensures h == BottomToTop ==> curr.1 <= prev.1
  {
    var dx, dy := curr.0 - prev.0, curr.1 - prev.1;
    if Abs(dx) > Abs(dy) then
      if dx > 0 then LeftToRight else RightToLeft
    else
      if dy > 0 then TopToBottom else BottomToTop
  }

  /** No movement at all reads as bottom-to-top. */
  lemma NoMovementIsBottomToTop(p: Pos)
    ensures InitialDirection(p, p) == BottomToTop
  {
  }

  datatype PaintingDirection = Auto | GroundLeft | CeilingRight

  /** `get_default_painting_direction`: ground/left for the two names listed,
      ceiling/right for every other string. */
  function DefaultPaintingDirection(initial: string): (d: PaintingDirection)
    ensures d != Auto
  {
    if initial in ["left_to_right", "bottom_to_top"] then GroundLeft else CeilingRight
  }

  /** A stroke paints ground/left exactly when it starts rightwards or, when
      not horizontal, does not start downwards. */
  lemma DefaultForStroke(prev: Pos, curr: Pos)
    ensures var dx, dy := curr.0 - prev.0, curr.1 - prev.1;
      DefaultPaintingDirection(HeadingName(InitialDirection(prev, curr))) == GroundLeft
      <==> (Abs(dx) > Abs(dy) && dx > 0) || (Abs(dx) <= Abs(dy) && dy <= 0)
  {
  }

  // ----- smart paint: which positions to paint -----

  predicate TopFamily(t: Terrain) {
    t == Top || t == TopLeft || t == TopRight
  }

  predicate BottomFamily(t: Terrain) {
    t == Bottom || t == BottomLeft || t == BottomRight
  }

  /** `should_paint_terrain` for the positions `calculate_auto_tile_type`
      yields: everything under AUTO; under GROUND_LEFT the top family and
      left, plus the bottom family when there is terrain above; under
      CEILING_RIGHT the bottom family and right, plus the top family when
      there is terrain below. */
  function ShouldPaintTerrain(t: Terrain, dir: PaintingDirection, above: bool, below: bool): (b: bool)
    ensures dir == Auto ==> b
    ensures dir != Auto && (t == Center || t.InnerTopLeft? || t.InnerTopRight? || t.InnerBottomLeft? || t.InnerBottomRight?) ==> !b
    ensures dir == GroundLeft ==> (b <==> TopFamily(t) || t == Left || (above && BottomFamily(t)))
  {
    match dir
    case Auto => true
    case GroundLeft =>
      if t in {Top, Left, TopLeft, TopRight} then true
      else above && t in {Bottom, BottomLeft, BottomRight}
    case CeilingRight =>
      if t in {Bottom, Right, BottomLeft, BottomRight} then true
      else below && t in {Top, TopLeft, TopRight}
  }

  /** The position seen upside down and mirrored (a half turn). */
  function HalfTurn(t: Terrain): (r: Terrain)
    ensures TopFamily(t) <==> BottomFamily(r)
    ensures BottomFamily(t) <==> TopFamily(r)
  {
    match t
    case Center => Center
    case Top => Bottom
    case Bottom => Top
    case Left => Right
    case Right => Left
    case TopLeft => BottomRight
    case TopRight => BottomLeft
    case BottomLeft => TopRight
    case BottomRight => TopLeft
    case InnerTopLeft => InnerBottomRight
    case InnerTopRight => InnerBottomLeft
    case InnerBottomLeft => InnerTopRight
    case InnerBottomRight => InnerTopLeft
  }

  lemma HalfTurnInvolution(t: Terrain)
    ensures HalfTurn(HalfTurn(t)) == t
  {
  }

  /** CEILING_RIGHT is GROUND_LEFT turned half round: the position turned, and
      "terrain below" in place of "terrain above". */
  lemma CeilingMirrorsGround(t: Terrain, above: bool, below: bool)
    ensures ShouldPaintTerrain(t, CeilingRight, above, below) == ShouldPaintTerrain(HalfTurn(t), GroundLeft, below, above)
  {
  }

  // ----- smart paint: the path loop -----

  /** One iteration of `paint_smart_path`: auto-tile the point, drop it when
      the direction filter rejects its position or the brush has no id for
      it, else emit it and record it in the tile map. */
  function SmartStep(st: PaintState, p: Pos, layer: int, terrain: Table, dir: PaintingDirection): PaintState {
    var n := GetNeighbors(p.0, p.1, layer, st.tiles);
    var t := AutoTileType(n);
    if !ShouldPaintTerrain(t, dir, n.top, n.bottom) then st
    else match Lookup(terrain, TerrainName(t))
      case None => st
      case Some(id) => PaintState(st.ops + [PaintOp(p.0, p.1, id, layer)], st.tiles[(p.0, p.1, layer) := id])
  }

  function SmartAlong(st: PaintState, path: seq<Pos>, layer: int, terrain: Table, dir: PaintingDirection): PaintState {
    if path == [] then st
    else SmartStep(SmartAlong(st, path[..|path| - 1], layer, terrain, dir), path[|path| - 1], layer, terrain, dir)
  }

  lemma SmartAlongSnoc(st: PaintState, path: seq<Pos>, p: Pos, layer: int, terrain: Table, dir: PaintingDirection)
    ensures SmartAlong(st, path + [p], layer, terrain, dir) == SmartStep(SmartAlong(st, path, layer, terrain, dir), p, layer, terrain, dir)
  {
    assert (path + [p])[..|path|] == path;
  }

  /** `paint_smart_path`: returns the operations and the tile map it updated
      (the source updates the caller's dictionary in place). */
  method PaintSmartPath(path: seq<Pos>, layer: int, terrain: Table, dir: PaintingDirection, existing: TileMap)
    returns (ops: seq<PaintOp>, tiles: TileMap)
    ensures PaintState(ops, tiles) == SmartAlong(PaintState([], existing), path, layer, terrain, dir)
  {
    ops, tiles := [], existing;
    var i := 0;
    while i < |path|
      invariant 0 <= i <= |path|
      invariant PaintState(ops, tiles) == SmartAlong(PaintState([], existing), path[..i], layer, terrain, dir)
    {
      assert path[..i + 1] == path[..i] + [path[i]];
      SmartAlongSnoc(PaintState([], existing), path[..i], path[i], layer, terrain, dir);
      ops, tiles := SmartPaintPoint(ops, tiles, path[i], layer, terrain, dir);
      i := i + 1;
    }
    assert path[..|path|] == path;
  }

  /** The body of `paint_smart_path`'s loop, for one point. */
  method SmartPaintPoint(ops0: seq<PaintOp>, tiles0: TileMap, p: Pos, layer: int, terrain: Table, dir: PaintingDirection)
    returns (ops: seq<PaintOp>, tiles: TileMap)
    ensures PaintState(ops, tiles) == SmartStep(PaintState(ops0, tiles0), p, layer, terrain, dir)
  {
    ops, tiles := ops0, tiles0;
    var (x, y) := p;
    var neighbors := GetNeighbors(x, y, layer, tiles);
    var tileType := AutoTileType(neighbors);
    if ShouldPaintTerrain(tileType, dir, neighbors.top, neighbors.bottom) {
      var tileId := Lookup(terrain, TerrainName(tileType));
      if tileId.Some? {
        ops := ops + [PaintOp(x, y, tileId.value, layer)];
        tiles := tiles[(x, y, layer) := tileId.value];
      }
    }
  }

  /** Smart painting only appends, at most one operation per point, each on
      the layer with an id the brush holds, and every emitted cell is in the
      tile map afterwards. */
  lemma {:induction false} SmartAlongAppends(st: PaintState, path: seq<Pos>, layer: int, terrain: Table, dir: PaintingDirection)
    ensures var r := SmartAlong(st, path, layer, terrain, dir);
      |st.ops| <= |r.ops| <= |st.ops| + |path| && r.ops[..|st.ops|] == st.ops
      && (forall i :: |st.ops| <= i < |r.ops| ==> r.ops[i].layer == layer && Some(r.ops[i].tileId) in terrain.Values)
      && (forall i :: |st.ops| <= i < |r.ops| ==> (r.ops[i].x, r.ops[i].y, layer) in r.tiles)
  {
    if path != [] {
      var init, p := path[..|path| - 1], path[|path| - 1];
      SmartAlongAppends(st, init, layer, terrain, dir);
      var m := SmartAlong(st, init, layer, terrain, dir);
      var r := SmartAlong(st, path, layer, terrain, dir);
      if r != m {
        var t := AutoTileType(GetNeighbors(p.0, p.1, layer, m.tiles));
        assert TerrainName(t) in terrain;
        assert r.ops == m.ops + [r.ops[|m.ops|]];
      }
    }
  }

  /** Every terrain slot holds a positive id. */
  predicate AllPositive(terrain: Table) {
    forall t :: t in TerrainKeys ==> Lookup(terrain, t).Some? && Lookup(terrain, t).value > 0
  }

  /** Under AUTO, with every slot holding a positive id, smart painting is
      `paint_path`, which then never raises. */
  lemma {:induction false} SmartAutoIsPaintPath(st: PaintState, path: seq<Pos>, layer: int, terrain: Table)
    requires AllPositive(terrain)
    ensures TerrainComplete(terrain)
    ensures PaintAlong(st, path, layer, terrain) == Some(SmartAlong(st, path, layer, terrain, Auto))
  {
    if path != [] {
      var init, p := path[..|path| - 1], path[|path| - 1];
      SmartAutoIsPaintPath(st, init, layer, terrain);
      var m := SmartAlong(st, init, layer, terrain, Auto);
      var t := AutoTileType(GetNeighbors(p.0, p.1, layer, m.tiles));
      assert Lookup(terrain, TerrainName(t)).value > 0;
    }
  }

  // ----- the eraser -----

  /** Erase operations (tile id 0) at the given cells, in order. */
  function EraseOps(cells: seq<Pos>, layer: int): (ops: seq<PaintOp>)
    ensures |ops| == |cells|
    ensures forall i :: 0 <= i < |cells| ==> ops[i] == PaintOp(cells[i].0, cells[i].1, 0, layer)
  {
    seq(|cells|, i requires 0 <= i < |cells| => PaintOp(cells[i].0, cells[i].1, 0, layer))
  }

  lemma EraseOpsSnoc(cells: seq<Pos>, c: Pos, layer: int)
    ensures EraseOps(cells + [c], layer) == EraseOps(cells, layer) + [PaintOp(c.0, c.1, 0, layer)]
  {
  }

  /** `erase_path`: one erase operation per path point, in order. */
  method ErasePath(path: seq<Pos>, layer: int) returns (ops: seq<PaintOp>)
    ensures ops == EraseOps(path, layer)
  {
    ops := [];
    var i := 0;
    while i < |path|
      invariant 0 <= i <= |path|
      invariant ops == EraseOps(path[..i], layer)
    {
      assert path[..i + 1] == path[..i] + [path[i]];
      EraseOpsSnoc(path[..i], path[i], layer);
      ops := ops + [PaintOp(path[i].0, path[i].1, 0, layer)];
      i := i + 1;
    }
    assert path[..|path|] == path;
  }

  /** `erase_rectangle`: an erase operation for every cell of the normalised
      rectangle, row by row. */
  method EraseRectangle(start: Pos, end: Pos, layer: int) returns (ops: seq<PaintOp>)
    ensures ops == EraseOps(RectCells(start, end), layer)
  {
    var minX, maxX := Min(start.0, end.0), Max(start.0, end.0);
    var minY, maxY := Min(start.1, end.1), Max(start.1, end.1);
    ops := [];
    var y := minY;
    while y <= maxY
      invariant minY <= y <= maxY + 1
      invariant ops == EraseOps(Cells(minX, maxX, minY, y - 1), layer)
    {
      CellsSnoc(minX, maxX, minY, y);
      ops := EraseRow(ops, Cells(minX, maxX, minY, y - 1), y, minX, maxX, layer);
      y := y + 1;
    }
  }

  /** The inner loop of `erase_rectangle`: one row, left to right. */
  method EraseRow(ops0: seq<PaintOp>, done: seq<Pos>, y: int, minX: int, maxX: int, layer: int) returns (ops: seq<PaintOp>)
    requires ops0 == EraseOps(done, layer)
    ensures ops == EraseOps(done + Row(y, minX, maxX), layer)
  {
    ops := ops0;
    var x := minX;
    while x <= maxX
      invariant x == minX || minX <= x <= maxX + 1
      invariant ops == EraseOps(done + Row(y, minX, x - 1), layer)
    {
      RowSnoc(y, minX, x);
      assert done + Row(y, minX, x) == (done + Row(y, minX, x - 1)) + [(x, y)];
      EraseOpsSnoc(done + Row(y, minX, x - 1), (x, y), layer);
      ops := ops + [PaintOp(x, y, 0, layer)];
      x := x + 1;
    }
  }

  /** The erase rectangle holds width × height operations, one for each cell
      of the rectangle and none twice, all with id 0. */
  lemma EraseRectangleCells(start: Pos, end: Pos, layer: int)
    ensures var ops := EraseOps(RectCells(start, end), layer);
      |ops| == (Abs(end.0 - start.0) + 1) * (Abs(end.1 - start.1) + 1)
      && (forall i :: 0 <= i < |ops| ==> ops[i].tileId == 0 && ops[i].layer == layer)
      && (forall p :: p in OpPositions(ops) <==> InRect(p, start, end))
      && Distinct(OpPositions(ops))
  {
    var cells := RectCells(start, end);
    RectCellsFacts(start, end);
    var ops := EraseOps(cells, layer);
    assert OpPositions(ops) == cells;
  }
}
