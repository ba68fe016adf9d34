/** The painting primitives (quickpaint/core/painter.py): Bresenham lines,
    8-neighbour auto-tiling, painting along a path, and filled rectangles. */
module Painter {
  import opened Common
  import opened Tiles
  import opened Brush
  import opened Grid

  /** One tile placement: position, object id (0 erases) and layer. */
  datatype PaintOp = PaintOp(x: int, y: int, tileId: int, layer: int)

  /** The tiles already present, keyed by (x, y, layer). */
  type TileMap = map<(int, int, int), int>

  // ----- Bresenham -----

  /** The dominant-axis walk both branches of `bresenham_line` run: the
      dominant coordinate `a` takes the `da + 1` values of the source's
      `range`, stepping by `sa` from `a0`, while the loop moves the other
      coordinate `b` with the error term. Points are returned as (a, b). */
  method DominantWalk(a0: int, b0: int, da: nat, db: nat, sa: int, sb: int) returns (pts: seq<Pos>)
    requires db <= da && (sa == 1 || sa == -1) && (sb == 1 || sb == -1)
    ensures |pts| == da + 1
    ensures pts[0] == (a0, b0) && pts[da] == (a0 + sa * da, b0 + sb * db)
    ensures StepsAlongX(pts, sa, if db == 0 then 0 else sb)
  {
    var bs := MinorWalk(b0, da, db, sb);
    pts := seq(da + 1, i requires 0 <= i <= da => (a0 + sa * i, bs[i]));
  }

  /** Each value equals the one before it or is `step` past it. */
  predicate LevelOrStep(bs: seq<int>, step: int) {
    forall i :: 0 <= i < |bs| - 1 ==> bs[i + 1] == bs[i] || bs[i + 1] == bs[i] + step
  }

  lemma LevelOrStepSnoc(bs: seq<int>, b: int, step: int)
    requires LevelOrStep(bs, step) && (bs != [] ==> b == bs[|bs| - 1] || b == bs[|bs| - 1] + step)
    ensures LevelOrStep(bs + [b], step)
  {
  }

  /** The error-term loop of `bresenham_line`: the second coordinate of each
      of the `da + 1` points. The source's `err = d/2.0` is always a
      half-integer, so the loop keeps `2 * err` as an integer; the minor
      axis advances `db` times in all, at most once per point, and never
      when `db` is 0. */
  method MinorWalk(b0: int, da: nat, db: nat, sb: int) returns (bs: seq<int>)
    requires db <= da && (sb == 1 || sb == -1)
    ensures |bs| == da + 1 && bs[0] == b0 && bs[da] == b0 + sb * db
    ensures LevelOrStep(bs, if db == 0 then 0 else sb)
  {
    ghost var step := if db == 0 then 0 else sb;
    bs := [];
    var e2: int := da;
    var y := b0;
    ghost var k: nat := 0;
    ghost var dbi: int, dak: int := 0, 0;
    var i := 0;
    while i <= da
      invariant 0 <= i <= da + 1 && |bs| == i
      invariant dbi == Times(db, i) && dak == Times(da, k)
      invariant e2 == da - 2 * dbi + 2 * dak
      invariant 0 <= e2 && (e2 < 2 * da || da == 0)
      invariant k <= i && (db == 0 ==> k == 0)
      invariant y == b0 + Times(sb, k)
      invariant i > 0 ==> bs[0] == b0 && (bs[i - 1] == y || bs[i - 1] + step == y)
      invariant i == da + 1 ==> bs[da] == b0 + Times(sb, db)
      invariant LevelOrStep(bs, step)
    {
      if i == da {
        StepsAtEnd(da, db, k);
      }
      LevelOrStepSnoc(bs, y, step);
      bs := bs + [y];
      e2 := e2 - 2 * db;
      if e2 < 0 {
        y := y + sb;
        k := k + 1;
        dak := dak + da;
        e2 := e2 + 2 * da;
      }
      i := i + 1;
      dbi := dbi + db;
    }
    TimesIsProduct(sb, db);
  }

  /** `a` added `n` times; the walk keeps its running products in this form
      so that its loop needs no multiplication. */
  function Times(a: int, n: nat): int {
    if n == 0 then 0 else Times(a, n - 1) + a
  }

  lemma {:induction false} TimesIsProduct(a: int, n: nat)
    ensures Times(a, n) == a * n
  {
    if n > 0 {
      TimesIsProduct(a, n - 1);
    }
  }

  /** A multiple of a positive `a` that lies in [0, 2a) is 0·a or 1·a. */
  lemma PinMultiple(a: int, m: int)
    requires a > 0 && 0 <= a * m < 2 * a
    ensures m == 0 || m == 1
  {
    MulMonotone(a, m, 2);
    MulMonotone(a, -1, m);
  }

  lemma MulMonotone(a: int, x: int, y: int)
    requires a > 0
    ensures x >= y ==> a * x >= a * y
  {
    assert a * x - a * y == a * (x - y);
  }

  /** When the last point is emitted the error term is still within bounds,
      which pins the minor axis's step count to `db`. */
  lemma StepsAtEnd(da: nat, db: nat, k: nat)
    requires db <= da && 0 <= da - 2 * Times(db, da) + 2 * Times(da, k)
    requires da - 2 * Times(db, da) + 2 * Times(da, k) < 2 * da || da == 0
    requires db == 0 ==> k == 0
    ensures k == db
  {
    if da > 0 {
      var m := 1 - 2 * db + 2 * k;
      TimesIsProduct(db, da);
      TimesIsProduct(da, k);
      Factor(da, db, k);
      PinMultiple(da, m);
    }
  }

  lemma Factor(a: int, b: int, k: int)
    ensures a - 2 * (b * a) + 2 * (a * k) == a * (1 - 2 * b + 2 * k)
  {
  }

  /** Each point is one step of `sx` along x past the previous one, and
      level with it or one step of `sy` past it along y. */
  predicate StepsAlongX(points: seq<Pos>, sx: int, sy: int) {
    forall i :: 0 <= i < |points| - 1 ==>
      points[i + 1].0 == points[i].0 + sx && (points[i + 1].1 == points[i].1 || points[i + 1].1 == points[i].1 + sy)
  }

  /** The same with the roles of x and y exchanged. */
  predicate StepsAlongY(points: seq<Pos>, sx: int, sy: int) {
    forall i :: 0 <= i < |points| - 1 ==>
      points[i + 1].1 == points[i].1 + sy && (points[i + 1].0 == points[i].0 || points[i + 1].0 == points[i].0 + sx)
  }

  function Transpose(pts: seq<Pos>): (r: seq<Pos>)
    ensures |r| == |pts| && forall i :: 0 <= i < |pts| ==> r[i] == (pts[i].1, pts[i].0)
  {
    seq(|pts|, i requires 0 <= i < |pts| => (pts[i].1, pts[i].0))
  }

  lemma TransposeSteps(pts: seq<Pos>, sa: int, sb: int)
    requires StepsAlongX(pts, sa, sb)
    ensures StepsAlongY(Transpose(pts), sb, sa)
  {
  }

  /** `bresenham_line`: max(|dx|, |dy|) + 1 points from (x0, y0) to (x1, y1);
      each step moves exactly one cell towards the end on the dominant axis
      (x when |dx| > |dy| strictly) and zero or one cell towards the end on
      the other. */
  method BresenhamLine(x0: int, y0: int, x1: int, y1: int) returns (points: seq<Pos>)
    ensures |points| == Max(Abs(x1 - x0), Abs(y1 - y0)) + 1
    ensures points[0] == (x0, y0) && points[|points| - 1] == (x1, y1)
    ensures Abs(x1 - x0) > Abs(y1 - y0) ==> StepsAlongX(points, Sign(x1 - x0), Sign(y1 - y0))
    ensures Abs(x1 - x0) <= Abs(y1 - y0) && y1 != y0 ==> StepsAlongY(points, Sign(x1 - x0), Sign(y1 - y0))
  {
    var dx := Abs(x1 - x0);
    var dy := Abs(y1 - y0);
    var sx: int := if x0 < x1 then 1 else -1;
    var sy: int := if y0 < y1 then 1 else -1;
    assert x0 + sx * dx == x1 && y0 + sy * dy == y1;
    if dx > dy {
      assert Sign(x1 - x0) == sx && Sign(y1 - y0) == if dy == 0 then 0 else sy;
      points := DominantWalk(x0, y0, dx, dy, sx, sy);
    } else {
      var swapped := DominantWalk(y0, x0, dy, dx, sy, sx);
      TransposeSteps(swapped, sy, if dx == 0 then 0 else sx);
      points := Transpose(swapped);
      assert dy > 0 ==> Sign(y1 - y0) == sy && Sign(x1 - x0) == if dx == 0 then 0 else sx;
    }
  }

  // ----- neighbours and auto-tiling -----

  /** The eight neighbour flags `get_neighbors` reports. */
  datatype Neighbors = Neighbors(
    top: bool, bottom: bool, left: bool, right: bool,
    topLeft: bool, topRight: bool, bottomLeft: bool, bottomRight: bool)

  /** `get_neighbors`: each flag says whether that offset, on the same layer, is
      a key of the tile map. */
  function GetNeighbors(x: int, y: int, layer: int, tiles: TileMap): (n: Neighbors)
    ensures n.top <==> (x, y - 1, layer) in tiles
    ensures n.bottom <==> (x, y + 1, layer) in tiles
    ensures n.left <==> (x - 1, y, layer) in tiles
    ensures n.right <==> (x + 1, y, layer) in tiles
    ensures n.topLeft <==> (x - 1, y - 1, layer) in tiles
    ensures n.topRight <==> (x + 1, y - 1, layer) in tiles
    ensures n.bottomLeft <==> (x - 1, y + 1, layer) in tiles
    ensures n.bottomRight <==> (x + 1, y + 1, layer) in tiles
  {
    Neighbors((x, y - 1, layer) in tiles, (x, y + 1, layer) in tiles,
              (x - 1, y, layer) in tiles, (x + 1, y, layer) in tiles,
              (x - 1, y - 1, layer) in tiles, (x + 1, y - 1, layer) in tiles,
              (x - 1, y + 1, layer) in tiles, (x + 1, y + 1, layer) in tiles)
  }

  function Bit(b: bool, v: bv8): bv8 {
    if b then v else 0
  }

  /** The bitmask of `calculate_auto_tile_type`: top_left 0x01, top 0x02,
      top_right 0x04, left 0x08, right 0x10, bottom_left 0x20, bottom 0x40,
      bottom_right 0x80. */
  function Mask(n: Neighbors): bv8 {
    Bit(n.topLeft, 0x01) | Bit(n.top, 0x02) | Bit(n.topRight, 0x04) | Bit(n.left, 0x08)
    | Bit(n.right, 0x10) | Bit(n.bottomLeft, 0x20) | Bit(n.bottom, 0x40) | Bit(n.bottomRight, 0x80)
  }

  /** The neighbour flags a mask stands for. */
  function Unmask(m: bv8): Neighbors {
    Neighbors(m & 0x02 != 0, m & 0x40 != 0, m & 0x08 != 0, m & 0x10 != 0,
              m & 0x01 != 0, m & 0x04 != 0, m & 0x20 != 0, m & 0x80 != 0)
  }

  /** The mask loses nothing: each of the 256 masks is exactly one neighbour
      configuration. */
  lemma MaskRoundTrip(n: Neighbors, m: bv8)
    ensures Unmask(Mask(n)) == n
    ensures Mask(Unmask(m)) == m
  {
    UnmaskMask(n);
    MaskUnmask(m);
  }

  lemma UnmaskMask(n: Neighbors)
    ensures Unmask(Mask(n)) == n
  {
  }

  lemma MaskUnmask(m: bv8)
    ensures Mask(Unmask(m)) == m
  {
  }

  /** `calculate_auto_tile_type`'s table as written. Several corner masks do
      not match the neighbours the source's comments name: 0x07 (top-left, top,
      top-right) picks 'top_left'; 0x0E and 0x0D, which hold the left
      neighbour and never the right, pick 'top_right'; 0x70 (bottom, bottom-left,
      right) picks 'bottom_left'; 0xE0 (the bottom row) picks 'bottom_right';
      and the inner corners 0xFD and 0xBF lack the top and the bottom
      neighbour rather than the top-right and bottom-right diagonal. The
      painting operations below use this table. */
  function TypeForMask(m: bv8): Terrain {
    if m == 0xFF then Center
    else if m == 0x02 then Top
    else if m == 0x40 then Bottom
    else if m == 0x08 then Left
    else if m == 0x10 then Right
    else if m == 0x07 || m == 0x0B then TopLeft
    else if m == 0x0E || m == 0x0D then TopRight
    else if m == 0x70 || m == 0x68 then BottomLeft
    else if m == 0xE0 || m == 0xD0 then BottomRight
    else if m == 0xFE then InnerTopLeft
    else if m == 0xFD then InnerTopRight
    else if m == 0xDF then InnerBottomLeft
    else if m == 0xBF then InnerBottomRight
    else Center
  }

  /** `calculate_auto_tile_type`: the neighbours' mask looked up in the table
      as written. */
  function AutoTileType(n: Neighbors): Terrain {
    TypeForMask(Mask(n))
  }

  /** The table the source's comments describe: an outer corner is the
      corner's two edges, with or without the diagonal between them (top-left
      0x0A/0x0B, top-right 0x12/0x16, bottom-left 0x48/0x68, bottom-right
      0x50/0xD0); an inner corner is every neighbour but that diagonal (0xFE,
      0xFB, 0xDF, 0x7F). Every other mask is treated as written. */
  function IntendedTypeForMask(m: bv8): Terrain {
    if m == 0xFF then Center
    else if m == 0x02 then Top
    else if m == 0x40 then Bottom
    else if m == 0x08 then Left
    else if m == 0x10 then Right
    else if m == 0x0A || m == 0x0B then TopLeft
    else if m == 0x12 || m == 0x16 then TopRight
    else if m == 0x48 || m == 0x68 then BottomLeft
    else if m == 0x50 || m == 0xD0 then BottomRight
    else if m == 0xFE then InnerTopLeft
    else if m == 0xFB then InnerTopRight
    else if m == 0xDF then InnerBottomLeft
    else if m == 0x7F then InnerBottomRight
    else Center
  }

  /** The auto-tile type with the corners the comments describe. */
  function IntendedAutoTileType(n: Neighbors): Terrain {
    IntendedTypeForMask(Mask(n))
  }

  const AllAround := Neighbors(true, true, true, true, true, true, true, true)
  const Nothing := Neighbors(false, false, false, false, false, false, false, false)

  /** A neighbourhood has a given mask exactly when it is that mask's flags. */
  lemma MaskIs(n: Neighbors, m: bv8)
    ensures Mask(n) == m <==> n == Unmask(m)
  {
    UnmaskMask(n);
    MaskUnmask(m);
  }

  /** A full neighbourhood gives 'center', and an edge type means that single
      edge neighbour and nothing else; the intended table agrees. */
  lemma AutoTileEdges(n: Neighbors)
    ensures n == AllAround ==> AutoTileType(n) == Center
    ensures AutoTileType(n) == Top <==> n == Nothing.(top := true)
    ensures AutoTileType(n) == Bottom <==> n == Nothing.(bottom := true)
    ensures AutoTileType(n) == Left <==> n == Nothing.(left := true)
    ensures AutoTileType(n) == Right <==> n == Nothing.(right := true)
    ensures AutoTileType(n) in {Top, Bottom, Left, Right} ==> IntendedAutoTileType(n) == AutoTileType(n)
  {
    assert Mask(AllAround) == 0xFF;
    EdgeMasks(Mask(n));
    MaskIs(n, 0x02);
    MaskIs(n, 0x40);
    MaskIs(n, 0x08);
    MaskIs(n, 0x10);
  }

  lemma EdgeMasks(m: bv8)
    ensures TypeForMask(m) == Top <==> m == 0x02
    ensures TypeForMask(m) == Bottom <==> m == 0x40
    ensures TypeForMask(m) == Left <==> m == 0x08
    ensures TypeForMask(m) == Right <==> m == 0x10
  {
  }

  /** As written, each corner type comes from exactly the masks of its branch. */
  lemma CornerMasksAsWritten(m: bv8)
    ensures TypeForMask(m) == TopLeft <==> m == 0x07 || m == 0x0B
    ensures TypeForMask(m) == TopRight <==> m == 0x0E || m == 0x0D
    ensures TypeForMask(m) == BottomLeft <==> m == 0x70 || m == 0x68
    ensures TypeForMask(m) == BottomRight <==> m == 0xE0 || m == 0xD0
    ensures TypeForMask(m) == InnerTopLeft <==> m == 0xFE
    ensures TypeForMask(m) == InnerTopRight <==> m == 0xFD
    ensures TypeForMask(m) == InnerBottomLeft <==> m == 0xDF
    ensures TypeForMask(m) == InnerBottomRight <==> m == 0xBF
  {
  }

  /** With the intended table, an inner corner means every neighbour but
      that one diagonal. */
  lemma AutoTileInnerCorners(n: Neighbors)
    ensures IntendedAutoTileType(n) == InnerTopLeft <==> n == AllAround.(topLeft := false)
    ensures IntendedAutoTileType(n) == InnerTopRight <==> n == AllAround.(topRight := false)
    ensures IntendedAutoTileType(n) == InnerBottomLeft <==> n == AllAround.(bottomLeft := false)
    ensures IntendedAutoTileType(n) == InnerBottomRight <==> n == AllAround.(bottomRight := false)
  {
    InnerCornerMasks(Mask(n));
    MaskIs(n, 0xFE);
    MaskIs(n, 0xFB);
    MaskIs(n, 0xDF);
    MaskIs(n, 0x7F);
  }

  lemma InnerCornerMasks(m: bv8)
    ensures IntendedTypeForMask(m) == InnerTopLeft <==> m == 0xFE
    ensures IntendedTypeForMask(m) == InnerTopRight <==> m == 0xFB
    ensures IntendedTypeForMask(m) == InnerBottomLeft <==> m == 0xDF
    ensures IntendedTypeForMask(m) == InnerBottomRight <==> m == 0x7F
  {
  }

  /** With the intended table, an outer corner means its two edges, possibly
      the diagonal between them, and nothing else. */
  lemma AutoTileOuterCorners(n: Neighbors)
    ensures IntendedAutoTileType(n) == TopLeft <==> n == Nothing.(top := true, left := true, topLeft := n.topLeft)
    ensures IntendedAutoTileType(n) == TopRight <==> n == Nothing.(top := true, right := true, topRight := n.topRight)
    ensures IntendedAutoTileType(n) == BottomLeft <==> n == Nothing.(bottom := true, left := true, bottomLeft := n.bottomLeft)
    ensures IntendedAutoTileType(n) == BottomRight <==> n == Nothing.(bottom := true, right := true, bottomRight := n.bottomRight)
  {
    OuterCornerMasks(Mask(n));
    MaskIs(n, 0x0A);
    MaskIs(n, 0x0B);
    MaskIs(n, 0x12);
    MaskIs(n, 0x16);
    MaskIs(n, 0x48);
    MaskIs(n, 0x68);
    MaskIs(n, 0x50);
    MaskIs(n, 0xD0);
  }

  lemma OuterCornerMasks(m: bv8)
    ensures IntendedTypeForMask(m) == TopLeft <==> m == 0x0A || m == 0x0B
    ensures IntendedTypeForMask(m) == TopRight <==> m == 0x12 || m == 0x16
    ensures IntendedTypeForMask(m) == BottomLeft <==> m == 0x48 || m == 0x68
    ensures IntendedTypeForMask(m) == BottomRight <==> m == 0x50 || m == 0xD0
  {
  }

  /** The table as written misses the top-right corner it describes (top, top
      right and right neighbours give 'center') and picks 'top_left' for a
      tile with no left neighbour, where the intended table picks the corner
      the neighbours form. */
  lemma OuterCornersAsWritten()
    ensures AutoTileType(Nothing.(top := true, topRight := true, right := true)) == Center
    ensures IntendedAutoTileType(Nothing.(top := true, topRight := true, right := true)) == TopRight
    ensures AutoTileType(Nothing.(topLeft := true, top := true, topRight := true)) == TopLeft
    ensures IntendedAutoTileType(Nothing.(topLeft := true, top := true, topRight := true)) == Center
  {
    assert Mask(Nothing.(top := true, topRight := true, right := true)) == 0x16;
    assert Mask(Nothing.(topLeft := true, top := true, topRight := true)) == 0x07;
  }

  /** As written, a tile whose only missing neighbour is the top one is an
      'inner_top_right' corner, while one missing only the top-right diagonal
      is 'center'. */
  lemma InnerCornersAsWritten()
    ensures AutoTileType(AllAround.(top := false)) == InnerTopRight
    ensures AutoTileType(AllAround.(topRight := false)) == Center
    ensures IntendedAutoTileType(AllAround.(topRight := false)) == InnerTopRight
  {
    assert Mask(AllAround.(top := false)) == 0xFD;
    assert Mask(AllAround.(topRight := false)) == 0xFB;
  }

  /** As written, no tile with a right neighbour is ever a 'top_right' corner. */
  lemma TopRightAsWritten(n: Neighbors)
    ensures AutoTileType(n) == TopRight ==> !n.right && n.left
  {
    MaskIs(n, 0x0E);
    MaskIs(n, 0x0D);
  }

  // ----- auto-tiling one cell -----

  /** Every terrain slot holds an id. */
  predicate TerrainComplete(terrain: Table) {
    forall t :: t in TerrainKeys ==> Lookup(terrain, t).Some?
  }

  /** What `auto_tile_8neighbor` does for one cell: it returns an id to place,
      returns None (the slot's id is not positive), or raises TypeError (the
      slot is unassigned, and `tile_id > 0` compares None with 0). */
  datatype AutoTile = Place(id: int) | NoTile | Raises

  /** `auto_tile_8neighbor`: the brush's id for the computed type when it is
      positive, no tile when it is not, and TypeError when the slot is
      unassigned. */
  function AutoTileId(x: int, y: int, layer: int, terrain: Table, tiles: TileMap): (r: AutoTile)
    ensures var slot := Lookup(terrain, TerrainName(AutoTileType(GetNeighbors(x, y, layer, tiles))));
      && (r.Raises? <==> slot.None?)
      && (r.Place? <==> slot.Some? && slot.value > 0)
      && (r.Place? ==> r.id == slot.value)
  {
    match Lookup(terrain, TerrainName(AutoTileType(GetNeighbors(x, y, layer, tiles))))
    case None => Raises
    case Some(id) => if id > 0 then Place(id) else NoTile
  }

  /** With every slot assigned, auto-tiling a cell never raises. */
  lemma TerrainSlot(terrain: Table, x: int, y: int, layer: int, tiles: TileMap)
    requires TerrainComplete(terrain)
    ensures !AutoTileId(x, y, layer, terrain, tiles).Raises?
  {
    var t := TerrainName(AutoTileType(GetNeighbors(x, y, layer, tiles)));
    assert t in TerrainKeys;
  }

  // ----- painting a path -----

  /** The operations so far and the tile map they have updated. */
  datatype PaintState = PaintState(ops: seq<PaintOp>, tiles: TileMap)

  /** One iteration of `paint_path`: auto-tile the point against the tiles
      so far and, when that yields an id, emit it and record it; None where
      auto-tiling raises. */
  function PaintStep(st: PaintState, p: Pos, layer: int, terrain: Table): Option<PaintState> {
    match AutoTileId(p.0, p.1, layer, terrain, st.tiles)
    case Raises => None
    case NoTile => Some(st)
    case Place(id) => Some(PaintState(st.ops + [PaintOp(p.0, p.1, id, layer)], st.tiles[(p.0, p.1, layer) := id]))
  }

  /** `paint_path` over a whole path, in order; None where some point raises,
      which ends the loop. */
  function PaintAlong(st: PaintState, path: seq<Pos>, layer: int, terrain: Table): Option<PaintState> {
    if path == [] then Some(st)
    else match PaintAlong(st, path[..|path| - 1], layer, terrain)
      case None => None
      case Some(m) => PaintStep(m, path[|path| - 1], layer, terrain)
  }

  function OpPos(op: PaintOp): Pos {
    (op.x, op.y)
  }

  function OpPositions(ops: seq<PaintOp>): (r: seq<Pos>)
    ensures |r| == |ops| && forall i :: 0 <= i < |ops| ==> r[i] == OpPos(ops[i])
  {
    seq(|ops|, i requires 0 <= i < |ops| => OpPos(ops[i]))
  }

  /** Painting one more point adds at most that point's operation. */
  lemma PaintAlongSnoc(st: PaintState, path: seq<Pos>, p: Pos, layer: int, terrain: Table)
    ensures PaintAlong(st, path + [p], layer, terrain) ==
      match PaintAlong(st, path, layer, terrain)
      case None => None
      case Some(m) => PaintStep(m, p, layer, terrain)
  {
    assert (path + [p])[..|path|] == path;
  }

  /** Painting raises exactly when some point, reached without raising,
      auto-tiles to an unassigned slot. */
  lemma {:induction false} PaintAlongRaises(st: PaintState, path: seq<Pos>, layer: int, terrain: Table)
    ensures PaintAlong(st, path, layer, terrain).None? <==>
      exists i :: 0 <= i < |path| && StepRaises(st, path, i, layer, terrain)
  {
    if path != [] {
      var init, p := path[..|path| - 1], path[|path| - 1];
      assert path == init + [p];
      PaintAlongRaises(st, init, layer, terrain);
      PaintAlongSnoc(st, init, p, layer, terrain);
      StepRaisesPrefix(st, init, p, layer, terrain);
      if PaintAlong(st, init, layer, terrain).None? {
        var i :| 0 <= i < |init| && StepRaises(st, init, i, layer, terrain);
        assert StepRaises(st, path, i, layer, terrain);
      } else {
        assert StepRaises(st, path, |init|, layer, terrain) <==> PaintAlong(st, path, layer, terrain).None?;
      }
    }
  }

  /** Whether an earlier point raises does not depend on the points after it. */
  lemma StepRaisesPrefix(st: PaintState, init: seq<Pos>, p: Pos, layer: int, terrain: Table)
    ensures forall i :: 0 <= i < |init| ==>
      StepRaises(st, init + [p], i, layer, terrain) == StepRaises(st, init, i, layer, terrain)
    ensures (init + [p])[..|init|] == init && (init + [p])[|init|] == p
  {
    forall i | 0 <= i < |init|
      ensures StepRaises(st, init + [p], i, layer, terrain) == StepRaises(st, init, i, layer, terrain)
    {
      assert (init + [p])[..i] == init[..i];
    }
    assert (init + [p])[..|init|] == init;
  }

  /** The point at index `i` is reached and auto-tiling it raises. */
  predicate StepRaises(st: PaintState, path: seq<Pos>, i: nat, layer: int, terrain: Table)
    requires i < |path|
  {
    var m := PaintAlong(st, path[..i], layer, terrain);
    m.Some? && AutoTileId(path[i].0, path[i].1, layer, terrain, m.value.tiles).Raises?
  }

  /** With every terrain slot assigned, painting never raises. */
  lemma {:induction false} CompleteNeverRaises(st: PaintState, path: seq<Pos>, layer: int, terrain: Table)
    requires TerrainComplete(terrain)
    ensures PaintAlong(st, path, layer, terrain).Some?
  {
    if path != [] {
      var init, p := path[..|path| - 1], path[|path| - 1];
      CompleteNeverRaises(st, init, layer, terrain);
      TerrainSlot(terrain, p.0, p.1, layer, PaintAlong(st, init, layer, terrain).value.tiles);
    }
  }

  /** Painting along a path only appends operations, each on the layer with a
      positive id. */
  lemma {:induction false} PaintAlongAppends(st: PaintState, path: seq<Pos>, layer: int, terrain: Table)
    ensures var r := PaintAlong(st, path, layer, terrain);
      r.Some? ==>
      |st.ops| <= |r.value.ops| <= |st.ops| + |path| && r.value.ops[..|st.ops|] == st.ops
      && forall i :: |st.ops| <= i < |r.value.ops| ==> r.value.ops[i].layer == layer && r.value.ops[i].tileId > 0
  {
    if path != [] {
      PaintAlongAppends(st, path[..|path| - 1], layer, terrain);
    }
  }

  /** The new operations are at some of the path's points, in path order. */
  lemma {:induction false} PaintAlongOrder(st: PaintState, path: seq<Pos>, layer: int, terrain: Table)
    ensures var r := PaintAlong(st, path, layer, terrain);
      r.Some? ==> |st.ops| <= |r.value.ops| && Subsequence(OpPositions(r.value.ops[|st.ops|..]), path)
  {
    if path == [] {
      assert OpPositions(st.ops[|st.ops|..]) == [];
    } else {
      var init, p := path[..|path| - 1], path[|path| - 1];
      assert path == init + [p];
      PaintAlongOrder(st, init, layer, terrain);
      PaintAlongAppends(st, init, layer, terrain);
      PaintAlongSnoc(st, init, p, layer, terrain);
      if PaintAlong(st, init, layer, terrain).Some? {
        var m := PaintAlong(st, init, layer, terrain).value;
        var news := OpPositions(m.ops[|st.ops|..]);
        SubsequenceExtend(news, init, p);
        match AutoTileId(p.0, p.1, layer, terrain, m.tiles)
        case Raises =>
        case NoTile =>
        case Place(id) =>
          OpPositionsSnoc(m.ops, |st.ops|, PaintOp(p.0, p.1, id, layer));
      }
    }
  }

  lemma OpPositionsSnoc(ops: seq<PaintOp>, k: nat, op: PaintOp)
    requires k <= |ops|
    ensures OpPositions((ops + [op])[k..]) == OpPositions(ops[k..]) + [OpPos(op)]
  {
    assert (ops + [op])[k..] == ops[k..] + [op];
  }

  /** The tile map gains exactly the cells of the new operations. */
  lemma {:induction false} PaintAlongTiles(st: PaintState, path: seq<Pos>, layer: int, terrain: Table)
    ensures var r := PaintAlong(st, path, layer, terrain);
      r.Some? ==>
      |st.ops| <= |r.value.ops|
      && forall key :: key in r.value.tiles <==>
           (key in st.tiles || exists i :: |st.ops| <= i < |r.value.ops| && key == (r.value.ops[i].x, r.value.ops[i].y, layer))
  {
    if path != [] {
      var init := path[..|path| - 1];
      PaintAlongTiles(st, init, layer, terrain);
      PaintAlongAppends(st, init, layer, terrain);
      if PaintAlong(st, path, layer, terrain).Some? {
        var m := PaintAlong(st, init, layer, terrain).value;
        var r := PaintAlong(st, path, layer, terrain).value;
        if |r.ops| > |m.ops| {
          assert r.ops[..|m.ops|] == m.ops;
          forall key | key in r.tiles
            ensures key in st.tiles || exists i :: |st.ops| <= i < |r.ops| && key == (r.ops[i].x, r.ops[i].y, layer)
          {
            if key !in m.tiles {
              assert key == (r.ops[|m.ops|].x, r.ops[|m.ops|].y, layer);
            }
          }
        }
      }
    }
  }

  /** `paint_path`: the loop that auto-tiles each point, emits the operation and
      adds the tile to `existing_tiles` before the next point. Returns the
      operations and the updated tile map, or None where auto-tiling raises
      TypeError, which leaves the loop. */
  method PaintPath(path: seq<Pos>, layer: int, terrain: Table, existing: TileMap)
    returns (r: Option<PaintState>)
    ensures r == PaintAlong(PaintState([], existing), path, layer, terrain)
  {
    var st0 := PaintState([], existing);
    var ops, tiles := st0.ops, st0.tiles;
    var i := 0;
    while i < |path|
      invariant 0 <= i <= |path|
      invariant PaintAlong(st0, path[..i], layer, terrain) == Some(PaintState(ops, tiles))
    {
      var x, y := path[i].0, path[i].1;
      PathNext(st0, path, i, PaintState(ops, tiles), layer, terrain);
      var id := AutoTileId(x, y, layer, terrain, tiles);
      if id.Raises? {
        PathRaised(st0, path, i + 1, layer, terrain);
        return None;
      }
      if id.Place? {
        ops := ops + [PaintOp(x, y, id.id, layer)];
        tiles := tiles[(x, y, layer) := id.id];
      }
      i := i + 1;
    }
    assert path[..|path|] == path;
    r := Some(PaintState(ops, tiles));
  }

  /** Painting one more point of a path, from the state its prefix reached. */
  lemma PathNext(st0: PaintState, path: seq<Pos>, i: nat, m: PaintState, layer: int, terrain: Table)
    requires i < |path| && PaintAlong(st0, path[..i], layer, terrain) == Some(m)
    ensures PaintAlong(st0, path[..i + 1], layer, terrain) == PaintStep(m, path[i], layer, terrain)
  {
    var q := path[..i + 1];
    assert q[..|q| - 1] == path[..i] && q[|q| - 1] == path[i];
  }

  /** A raise on a prefix of a path is a raise on the whole path. */
  lemma PathRaised(st0: PaintState, path: seq<Pos>, k: nat, layer: int, terrain: Table)
    requires k <= |path| && PaintAlong(st0, path[..k], layer, terrain).None?
    ensures PaintAlong(st0, path, layer, terrain).None?
  {
    RaisedStaysRaised(st0, path[..k], path[k..], layer, terrain);
    assert path[..k] + path[k..] == path;
  }

  /** `paint_single_tile` (also `SingleTileMode.paint_single_tile`): one
      operation per path point, in order, all with the given id. */
  method PaintSingleTile(path: seq<Pos>, layer: int, tileId: int) returns (ops: seq<PaintOp>)
    ensures |ops| == |path|
    ensures forall i :: 0 <= i < |path| ==> ops[i] == PaintOp(path[i].0, path[i].1, tileId, layer)
  {
    ops := [];
    var i := 0;
    while i < |path|
      invariant 0 <= i <= |path| && |ops| == i
      invariant forall j :: 0 <= j < i ==> ops[j] == PaintOp(path[j].0, path[j].1, tileId, layer)
    {
      ops := ops + [PaintOp(path[i].0, path[i].1, tileId, layer)];
      i := i + 1;
    }
  }

  // ----- rectangles -----

  /** The cells of the rectangle two corners span, row by row. */
  function RectCells(start: Pos, end: Pos): seq<Pos> {
    Cells(Min(start.0, end.0), Max(start.0, end.0), Min(start.1, end.1), Max(start.1, end.1))
  }

  predicate InRect(p: Pos, start: Pos, end: Pos) {
    InBox(p, Min(start.0, end.0), Max(start.0, end.0), Min(start.1, end.1), Max(start.1, end.1))
  }

  /** The operations of a painting outcome; None where it raised. */
  function OpsOf(r: Option<PaintState>): Option<seq<PaintOp>> {
    match r
    case None => None
    case Some(st) => Some(st.ops)
  }

  /** `create_rectangle`: normalise the corners, then auto-tile every cell of
      the rectangle row by row, starting from an empty tile map; None where
      auto-tiling raises. */
  method CreateRectangle(start: Pos, end: Pos, layer: int, terrain: Table) returns (ops: Option<seq<PaintOp>>)
    ensures ops == OpsOf(PaintAlong(PaintState([], map[]), RectCells(start, end), layer, terrain))
  {
    var minX, maxX := Min(start.0, end.0), Max(start.0, end.0);
    var minY, maxY := Min(start.1, end.1), Max(start.1, end.1);
    var st := PaintRect(PaintState([], map[]), minX, maxX, minY, maxY, layer, terrain);
    ops := OpsOf(st);
  }

  /** Once painting has raised, painting more cells does not undo it. */
  lemma RaisedStaysRaised(st: PaintState, a: seq<Pos>, b: seq<Pos>, layer: int, terrain: Table)
    requires PaintAlong(st, a, layer, terrain).None?
    ensures PaintAlong(st, a + b, layer, terrain).None?
  {
    PaintAlongConcat(st, a, b, layer, terrain);
  }

  /** A raise within the first rows of a rectangle is a raise for the whole. */
  lemma {:induction false} RowsRaised(st: PaintState, minX: int, maxX: int, minY: int, y: int, maxY: int, layer: int, terrain: Table)
    requires y <= maxY && PaintAlong(st, Cells(minX, maxX, minY, y), layer, terrain).None?
    ensures PaintAlong(st, Cells(minX, maxX, minY, maxY), layer, terrain).None?
    decreases maxY - y
  {
    if y < maxY {
      RowsRaised(st, minX, maxX, minY, y, maxY - 1, layer, terrain);
      if minY <= maxY {
        CellsSnoc(minX, maxX, minY, maxY);
        RaisedStaysRaised(st, Cells(minX, maxX, minY, maxY - 1), Row(maxY, minX, maxX), layer, terrain);
      }
    }
  }

  /** A raise within the first cells of a row is a raise for the whole row. */
  lemma {:induction false} CellsRaised(st: PaintState, y: int, minX: int, x: int, maxX: int, layer: int, terrain: Table)
    requires x <= maxX && PaintAlong(st, Row(y, minX, x), layer, terrain).None?
    ensures PaintAlong(st, Row(y, minX, maxX), layer, terrain).None?
    decreases maxX - x
  {
    if x < maxX {
      CellsRaised(st, y, minX, x, maxX - 1, layer, terrain);
      if minX <= maxX {
        RowSnoc(y, minX, maxX);
        RaisedStaysRaised(st, Row(y, minX, maxX - 1), [(maxX, y)], layer, terrain);
      }
    }
  }

  /** The outer loop of `create_rectangle`: rows top to bottom. */
  method PaintRect(st0: PaintState, minX: int, maxX: int, minY: int, maxY: int, layer: int, terrain: Table) returns (r: Option<PaintState>)
    ensures r == PaintAlong(st0, Cells(minX, maxX, minY, maxY), layer, terrain)
  {
    var ops, tiles := st0.ops, st0.tiles;
    var y := minY;
    while y <= maxY
      invariant y == minY || minY <= y <= maxY + 1
      invariant PaintAlong(st0, Cells(minX, maxX, minY, y - 1), layer, terrain) == Some(PaintState(ops, tiles))
    {
      RectNext(st0, minX, maxX, minY, y, PaintState(ops, tiles), layer, terrain);
      var row := PaintRow(PaintState(ops, tiles), y, minX, maxX, layer, terrain);
      if row.None? {
        RowsRaised(st0, minX, maxX, minY, y, maxY, layer, terrain);
        return None;
      }
      ops, tiles := row.value.ops, row.value.tiles;
      y := y + 1;
    }
    r := Some(PaintState(ops, tiles));
  }

  /** Painting one more row of a rectangle, from the state the rows above
      reached. */
  lemma RectNext(st0: PaintState, minX: int, maxX: int, minY: int, y: int, m: PaintState, layer: int, terrain: Table)
    requires minY <= y && PaintAlong(st0, Cells(minX, maxX, minY, y - 1), layer, terrain) == Some(m)
    ensures PaintAlong(st0, Cells(minX, maxX, minY, y), layer, terrain) == PaintAlong(m, Row(y, minX, maxX), layer, terrain)
  {
    CellsSnoc(minX, maxX, minY, y);
    PaintAlongConcat(st0, Cells(minX, maxX, minY, y - 1), Row(y, minX, maxX), layer, terrain);
  }

  /** The inner loop of `create_rectangle`: one row, left to right. */
  method PaintRow(st0: PaintState, y: int, minX: int, maxX: int, layer: int, terrain: Table)
    returns (r: Option<PaintState>)
    ensures r == PaintAlong(st0, Row(y, minX, maxX), layer, terrain)
  {
    var ops, tiles := st0.ops, st0.tiles;
    var x := minX;
    while x <= maxX
      invariant x == minX || minX <= x <= maxX + 1
      invariant PaintAlong(st0, Row(y, minX, x - 1), layer, terrain) == Some(PaintState(ops, tiles))
    {
      RowNext(st0, y, minX, x, PaintState(ops, tiles), layer, terrain);
      var id := AutoTileId(x, y, layer, terrain, tiles);
      if id.Raises? {
        CellsRaised(st0, y, minX, x, maxX, layer, terrain);
        return None;
      }
      if id.Place? {
        ops := ops + [PaintOp(x, y, id.id, layer)];
        tiles := tiles[(x, y, layer) := id.id];
      }
      x := x + 1;
    }
    r := Some(PaintState(ops, tiles));
  }

  /** Painting one more cell of a row, from the state the cells to its left
      reached. */
  lemma RowNext(st0: PaintState, y: int, minX: int, x: int, m: PaintState, layer: int, terrain: Table)
    requires minX <= x && PaintAlong(st0, Row(y, minX, x - 1), layer, terrain) == Some(m)
    ensures PaintAlong(st0, Row(y, minX, x), layer, terrain) == PaintStep(m, (x, y), layer, terrain)
  {
    RowSnoc(y, minX, x);
    PaintAlongSnoc(st0, Row(y, minX, x - 1), (x, y), layer, terrain);
  }

  /** The last point of a non-empty path split off, alone and after a prefix. */
  lemma SplitLast(a: seq<Pos>, b: seq<Pos>)
    requires b != []
    ensures b == b[..|b| - 1] + [b[|b| - 1]]
    ensures a + b == (a + b[..|b| - 1]) + [b[|b| - 1]]
  {
    assert b == b[..|b| - 1] + [b[|b| - 1]];
  }

  /** Painting along two paths in turn is painting along the joined path. */
  lemma {:induction false} PaintAlongConcat(st: PaintState, a: seq<Pos>, b: seq<Pos>, layer: int, terrain: Table)
    ensures PaintAlong(st, a + b, layer, terrain) ==
      match PaintAlong(st, a, layer, terrain)
      case None => None
      case Some(m) => PaintAlong(m, b, layer, terrain)
  {
    if b == [] {
      assert a + b == a;
    } else {
      var b', p := b[..|b| - 1], b[|b| - 1];
      SplitLast(a, b);
      PaintAlongConcat(st, a, b', layer, terrain);
      PaintAlongSnoc(st, a + b', p, layer, terrain);
      if PaintAlong(st, a, layer, terrain).Some? {
        PaintAlongSnoc(PaintAlong(st, a, layer, terrain).value, b', p, layer, terrain);
      }
    }
  }

  /** Painting a path from no operations yields at most one operation per
      point, each at a point of the path, and none twice when the path has no
      repeated point. */
  lemma PaintedPoints(st: PaintState, path: seq<Pos>, layer: int, terrain: Table)
    requires st.ops == []
    ensures var r := PaintAlong(st, path, layer, terrain);
      r.Some? ==>
      var ops := r.value.ops;
      |ops| <= |path| && (forall i :: 0 <= i < |ops| ==> OpPos(ops[i]) in path)
      && (Distinct(path) ==> Distinct(OpPositions(ops)))
  {
    PaintAlongOrder(st, path, layer, terrain);
    var r := PaintAlong(st, path, layer, terrain);
    if r.Some? {
      var ops := r.value.ops;
      assert ops[0..] == ops;
      SubsequenceMembers(OpPositions(ops), path);
      if Distinct(path) {
        SubsequenceDistinct(OpPositions(ops), path);
      }
      forall i | 0 <= i < |ops| ensures OpPos(ops[i]) in path {
        assert OpPositions(ops)[i] in path;
      }
    }
  }

  /** Every operation of a rectangle lies inside it, no cell is painted twice,
      and there are at most width × height of them; this holds whatever tiles
      the painting starts from, and so for the empty map `create_rectangle`
      starts from. */
  lemma RectangleOps(start: Pos, end: Pos, st: PaintState, layer: int, terrain: Table)
    requires st.ops == []
    ensures var r := PaintAlong(st, RectCells(start, end), layer, terrain);
      r.Some? ==>
      var ops := r.value.ops;
      |ops| <= (Abs(end.0 - start.0) + 1) * (Abs(end.1 - start.1) + 1)
      && (forall i :: 0 <= i < |ops| ==> InRect(OpPos(ops[i]), start, end))
      && Distinct(OpPositions(ops))
  {
    var cells := RectCells(start, end);
    RectCellsFacts(start, end);
    PaintedPoints(st, cells, layer, terrain);
  }

  /** The rectangle's cells are the cells inside it, each once, and there are
      width × height of them. */
  lemma RectCellsFacts(start: Pos, end: Pos)
    ensures var c := RectCells(start, end);
      |c| == (Abs(end.0 - start.0) + 1) * (Abs(end.1 - start.1) + 1)
      && (forall p :: p in c <==> InRect(p, start, end)) && Distinct(c)
  {
    var minX, maxX := Min(start.0, end.0), Max(start.0, end.0);
    var minY, maxY := Min(start.1, end.1), Max(start.1, end.1);
    CellsFacts(minX, maxX, minY, maxY);
    assert maxX - minX + 1 == Abs(end.0 - start.0) + 1 && maxY - minY + 1 == Abs(end.1 - start.1) + 1;
  }

  /** A subsequence of a sequence without repeats has none either. */
  lemma {:induction false} SubsequenceDistinct<T>(a: seq<T>, b: seq<T>)
    requires Subsequence(a, b) && Distinct(b)
    ensures Distinct(a)
    decreases |b|
  {
    if a != [] {
      var b' := b[..|b| - 1];
      assert Distinct(b');
      if a[|a| - 1] == b[|b| - 1] {
        var a' := a[..|a| - 1];
        SubsequenceDistinct(a', b');
        SubsequenceMembers(a', b');
        assert a == a' + [a[|a| - 1]];
        forall i | 0 <= i < |a'| ensures a'[i] != a[|a| - 1] {
          assert a'[i] in b';
        }
      } else {
        SubsequenceDistinct(a, b');
      }
    }
  }
}
