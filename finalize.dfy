/** The finish of a deferred stroke (`_finalize_deferred_painting` in
    quickpaint/core/engine.py): one pass over the outline places every slope
    at its full size and collects the terrain cells, the terrain cells are
    merged, and the cells of the merged placements are marked as placed and
    recorded in the tile map. The pass and the marking are specified here as
    functions on values; the engine's method runs them as loops. */
module Finalize {
  import opened Common
  import opened Tiles
  import opened SlopeShapes
  import opened Outline
  import Merge
  import Brush

  /** What the pass reads from the engine: the outline's tile types, the
      empty cells of existing slope objects, the brush, the tileset index
      and the layer. */
  datatype Context = Context(
    types: map<Pos, OutlineType>,
    empty: set<TileKey>,
    brush: Brush.BrushState,
    tileset: int,
    layer: int)

  /** The first pass after some outline positions: the slope placements so
      far, the terrain cells collected for merging, the order in which they
      were first collected, and the keys marked as placed. */
  datatype Pass = Pass(slopes: seq<Placement>, tiles: map<Pos, Merge.Tile>, order: seq<Pos>, placed: set<TileKey>)

  /** `outline_tile_types.get(pos, 'top')`. */
  function TypeAt(types: map<Pos, OutlineType>, pos: Pos): OutlineType {
    if pos in types then types[pos] else Tile(Top)
  }

  function Key(c: Pos, layer: int): TileKey {
    (c.0, c.1, layer)
  }

  predicate InRect(k: TileKey, x: int, y: int, w: int, h: int, layer: int) {
    k.2 == layer && x <= k.0 < x + w && y <= k.1 < y + h
  }

  /** The keys of the `w` by `h` cells with top-left `(x, y)` on a layer. */
  function Rect(x: int, y: int, w: int, h: int, layer: int): (r: set<TileKey>)
    ensures forall k :: k in r <==> InRect(k, x, y, w, h, layer)
  {
    var r := set a, b | x <= a < x + w && y <= b < y + h :: (a, b, layer);
    assert forall k :: InRect(k, x, y, w, h, layer) ==> (k.0, k.1, layer) in r && k == (k.0, k.1, layer);
    r
  }

  /** The keys of the cells a placement covers. */
  function Cells(pl: Placement, layer: int): set<TileKey> {
    Rect(pl.x, pl.y, pl.width, pl.height, layer)
  }

  /** Placement `pl` covers the cell of key `k` on the layer. */
  predicate OnCell(k: TileKey, pl: Placement, layer: int) {
    k.2 == layer && Merge.Covers(pl, (k.0, k.1))
  }

  /** One outline position of the first pass. A key already placed or lying
      in an empty slope region is skipped; a slope type with an assigned id
      is placed at its full size and all its cells are marked; a terrain type
      with an assigned id is collected; a type without an id is dropped. */
  function Step(p: Pass, pos: Pos, ctx: Context): Pass {
    var key := Key(pos, ctx.layer);
    if key in p.placed || key in ctx.empty then p
    else match TypeAt(ctx.types, pos)
      case Slope(s) =>
        (match Brush.Lookup(ctx.brush.slopes, Name(s))
         case None => p
         case Some(id) =>
           var dims := SlopeDimensions(Name(s));
           p.(slopes := p.slopes + [Placement(ctx.tileset, id, ctx.layer, pos.0, pos.1, dims.0, dims.1)],
              placed := p.placed + Rect(pos.0, pos.1, dims.0, dims.1, ctx.layer)))
      case Tile(t) =>
        (match Brush.Lookup(ctx.brush.terrain, TerrainName(t))
         case None => p
         case Some(id) =>
           p.(tiles := p.tiles[pos := (TerrainName(t), id)],
              order := if pos in p.tiles then p.order else p.order + [pos]))
  }

  /** The first pass over `outline`, starting from the keys `placed0`. The
      collected cells are exactly those listed in the merge order, and the
      placed keys only grow. */
  function FirstPass(outline: seq<Pos>, ctx: Context, placed0: set<TileKey>): (r: Pass)
    ensures forall c :: c in r.tiles <==> c in r.order
    ensures placed0 <= r.placed
    decreases |outline|
  {
    if outline == [] then Pass([], map[], [], placed0)
    else Step(FirstPass(outline[..|outline| - 1], ctx, placed0), outline[|outline| - 1], ctx)
  }

  /** The id the brush holds for the outline type at `c`, if any. */
  function AssignedId(ctx: Context, c: Pos): Option<int> {
    match TypeAt(ctx.types, c)
    case Slope(s) => Brush.Lookup(ctx.brush.slopes, Name(s))
    case Tile(t) => Brush.Lookup(ctx.brush.terrain, TerrainName(t))
  }

  /** `pl` is the slope object for its top-left cell: that cell's outline
      type is a slope whose id the brush holds, and `pl` has the slope's
      full size on the engine's tileset and layer. */
  predicate SlopeObject(ctx: Context, pl: Placement) {
    && TypeAt(ctx.types, Merge.Origin(pl)).Slope?
    && var s := TypeAt(ctx.types, Merge.Origin(pl)).shape;
    && Brush.Lookup(ctx.brush.slopes, Name(s)) == Some(pl.objectId)
    && pl.tileset == ctx.tileset && pl.layer == ctx.layer
    && pl.width == SizeWidth(s.size) && pl.height == 2
  }

  /** `v` is the merge entry for cell `c`: the terrain name of the cell's
      outline type and the id the brush holds for it. */
  predicate TerrainEntry(ctx: Context, c: Pos, v: Merge.Tile) {
    && TypeAt(ctx.types, c).Tile?
    && v.0 == TerrainName(TypeAt(ctx.types, c).t)
    && Brush.Lookup(ctx.brush.terrain, v.0) == Some(v.1)
  }

  predicate CoveredBy(slopes: seq<Placement>, k: TileKey, layer: int) {
    exists i :: 0 <= i < |slopes| && OnCell(k, slopes[i], layer)
  }

  /** Everything the first pass produces comes from the outline: each slope
      object sits on an outline position whose key was neither placed
      beforehand nor in an empty slope region, and each collected terrain
      cell is such a position too, with its brush id. */
  lemma {:induction false} PassSound(outline: seq<Pos>, ctx: Context, placed0: set<TileKey>)
    ensures var r := FirstPass(outline, ctx, placed0);
      && (forall i :: 0 <= i < |r.slopes| ==>
            && Merge.Origin(r.slopes[i]) in outline && SlopeObject(ctx, r.slopes[i])
            && Key(Merge.Origin(r.slopes[i]), ctx.layer) !in placed0
            && Key(Merge.Origin(r.slopes[i]), ctx.layer) !in ctx.empty)
      && (forall c :: c in r.tiles ==>
            && c in outline && TerrainEntry(ctx, c, r.tiles[c])
            && Key(c, ctx.layer) !in placed0 && Key(c, ctx.layer) !in ctx.empty)
    decreases |outline|
  {
    if outline != [] {
      var init, pos := outline[..|outline| - 1], outline[|outline| - 1];
      assert outline == init + [pos];
      PassSound(init, ctx, placed0);
      var p := FirstPass(init, ctx, placed0);
      if TypeAt(ctx.types, pos).Slope? {
        DimensionsOfName(TypeAt(ctx.types, pos).shape);
      }
      var r := FirstPass(outline, ctx, placed0);
      assert forall i :: 0 <= i < |p.slopes| ==> r.slopes[i] == p.slopes[i];
    }
  }

  /** The placed keys after the first pass are the initial ones and the
      cells of the slope objects. */
  lemma {:induction false} PassPlaced(outline: seq<Pos>, ctx: Context, placed0: set<TileKey>, k: TileKey)
    ensures var r := FirstPass(outline, ctx, placed0);
      k in r.placed <==> k in placed0 || CoveredBy(r.slopes, k, ctx.layer)
    decreases |outline|
  {
    if outline != [] {
      var init, pos := outline[..|outline| - 1], outline[|outline| - 1];
      PassPlaced(init, ctx, placed0, k);
      var p := FirstPass(init, ctx, placed0);
      var r := FirstPass(outline, ctx, placed0);
      if r.slopes != p.slopes {
        assert r.slopes == p.slopes + [r.slopes[|p.slopes|]];
        if CoveredBy(p.slopes, k, ctx.layer) {
          var i :| 0 <= i < |p.slopes| && OnCell(k, p.slopes[i], ctx.layer);
          assert r.slopes[i] == p.slopes[i];
        }
        if CoveredBy(r.slopes, k, ctx.layer) && !OnCell(k, r.slopes[|p.slopes|], ctx.layer) {
          var i :| 0 <= i < |r.slopes| && OnCell(k, r.slopes[i], ctx.layer);
          assert p.slopes[i] == r.slopes[i];
        }
      }
    }
  }

  /** No placement of `ps` starts on a cell of an earlier one. */
  predicate Apart(ps: seq<Placement>, layer: int) {
    forall i, j :: 0 <= i < j < |ps| ==> !OnCell(Key(Merge.Origin(ps[j]), layer), ps[i], layer)
  }

  /** No slope object starts on a cell of an earlier one. */
  lemma {:induction false} SlopesApart(outline: seq<Pos>, ctx: Context, placed0: set<TileKey>)
    ensures Apart(FirstPass(outline, ctx, placed0).slopes, ctx.layer)
    decreases |outline|
  {
    if outline != [] {
      var init, pos := outline[..|outline| - 1], outline[|outline| - 1];
      SlopesApart(init, ctx, placed0);
      var p := FirstPass(init, ctx, placed0);
      var r := FirstPass(outline, ctx, placed0);
      if r.slopes != p.slopes {
        var key := Key(pos, ctx.layer);
        assert r.slopes == p.slopes + [r.slopes[|p.slopes|]];
        assert key == Key(Merge.Origin(r.slopes[|p.slopes|]), ctx.layer) && key !in p.placed;
        PassPlaced(init, ctx, placed0, key);
        forall i, j | 0 <= i < j < |r.slopes|
          ensures !OnCell(Key(Merge.Origin(r.slopes[j]), ctx.layer), r.slopes[i], ctx.layer)
        {
          assert r.slopes[i] == p.slopes[i];
          if j == |p.slopes| {
            assert !OnCell(key, p.slopes[i], ctx.layer);
          } else {
            assert r.slopes[j] == p.slopes[j];
          }
        }
      }
    }
  }

  /** Every outline position whose type has a brush id ends up placed or
      collected for merging, unless its key lies in an empty slope region. */
  lemma {:induction false} PassComplete(outline: seq<Pos>, ctx: Context, placed0: set<TileKey>)
    ensures var r := FirstPass(outline, ctx, placed0);
      forall c :: c in outline && AssignedId(ctx, c).Some? && Key(c, ctx.layer) !in ctx.empty ==>
        Key(c, ctx.layer) in r.placed || c in r.tiles
    decreases |outline|
  {
    if outline != [] {
      var init, pos := outline[..|outline| - 1], outline[|outline| - 1];
      assert outline == init + [pos];
      PassComplete(init, ctx, placed0);
      var p := FirstPass(init, ctx, placed0);
      var r := FirstPass(outline, ctx, placed0);
      assert p.placed <= r.placed && p.tiles.Keys <= r.tiles.Keys;
      if Key(pos, ctx.layer) !in p.placed && Key(pos, ctx.layer) !in ctx.empty && TypeAt(ctx.types, pos).Slope? {
        var s := TypeAt(ctx.types, pos).shape;
        DimensionsOfName(s);
      }
    }
  }

  // ----- marking the merged placements -----

  /** The placed keys after marking the cells of `ps` in order. */
  function MarkPlaced(placed: set<TileKey>, ps: seq<Placement>, layer: int): set<TileKey>
    decreases |ps|
  {
    if ps == [] then placed else MarkPlaced(placed, ps[..|ps| - 1], layer) + Cells(ps[|ps| - 1], layer)
  }

  /** `existing` with every key of `cells` mapped to `id`. */
  function Stamp(existing: map<TileKey, int>, cells: set<TileKey>, id: int): (e: map<TileKey, int>)
    ensures forall k :: k in e <==> k in existing || k in cells
  {
    map k | k in existing.Keys + cells :: if k in cells then id else existing[k]
  }

  /** The tile map after recording the object id of each placement of `ps`
      on its cells, in order. */
  function MarkExisting(existing: map<TileKey, int>, ps: seq<Placement>, layer: int): map<TileKey, int>
    decreases |ps|
  {
    if ps == [] then existing
    else Stamp(MarkExisting(existing, ps[..|ps| - 1], layer), Cells(ps[|ps| - 1], layer), ps[|ps| - 1].objectId)
  }

  /** A key is placed after marking exactly when it was before or some
      placement covers it. */
  lemma {:induction false} MarkPlacedMembers(placed: set<TileKey>, ps: seq<Placement>, layer: int, k: TileKey)
    ensures k in MarkPlaced(placed, ps, layer) <==> k in placed || CoveredBy(ps, k, layer)
    decreases |ps|
  {
    if ps != [] {
      var init := ps[..|ps| - 1];
      MarkPlacedMembers(placed, init, layer, k);
      if CoveredBy(init, k, layer) {
        var i :| 0 <= i < |init| && OnCell(k, init[i], layer);
        assert ps[i] == init[i];
      }
      if CoveredBy(ps, k, layer) && !OnCell(k, ps[|ps| - 1], layer) {
        var i :| 0 <= i < |ps| && OnCell(k, ps[i], layer);
        assert init[i] == ps[i];
      }
    }
  }

  /** The tile map after marking has the old keys and the covered ones; a
      key no placement covers keeps its entry. */
  lemma {:induction false} MarkExistingKeys(existing: map<TileKey, int>, ps: seq<Placement>, layer: int, k: TileKey)
    ensures var e := MarkExisting(existing, ps, layer);
      && (k in e <==> k in existing || CoveredBy(ps, k, layer))
      && (!CoveredBy(ps, k, layer) && k in existing ==> e[k] == existing[k])
    decreases |ps|
  {
    if ps != [] {
      var init := ps[..|ps| - 1];
      MarkExistingKeys(existing, init, layer, k);
      if CoveredBy(init, k, layer) {
        var i :| 0 <= i < |init| && OnCell(k, init[i], layer);
        assert ps[i] == init[i];
      }
      if CoveredBy(ps, k, layer) && !OnCell(k, ps[|ps| - 1], layer) {
        var i :| 0 <= i < |ps| && OnCell(k, ps[i], layer);
        assert init[i] == ps[i];
      }
    }
  }

  /** A key records the id of the last placement covering it. */
  lemma {:induction false} MarkExistingLast(existing: map<TileKey, int>, ps: seq<Placement>, layer: int, k: TileKey, i: nat)
    requires i < |ps| && OnCell(k, ps[i], layer)
    requires forall j :: i < j < |ps| ==> !OnCell(k, ps[j], layer)
    ensures k in MarkExisting(existing, ps, layer)
    ensures MarkExisting(existing, ps, layer)[k] == ps[i].objectId
    decreases |ps|
  {
    if i < |ps| - 1 {
      var init := ps[..|ps| - 1];
      assert !OnCell(k, ps[|ps| - 1], layer);
      MarkExistingLast(existing, init, layer, k, i);
    }
  }

  /** A collected cell has one last covering placement, whose id is the
      cell's. */
  lemma LastCover(tiles: map<Pos, Merge.Tile>, ms: seq<Placement>, tileset: int, layer: int, c: Pos)
    returns (i: nat)
    requires Merge.IsMergeOf(tiles, ms, tileset, layer) && c in tiles
    ensures i < |ms| && Merge.Covers(ms[i], c) && ms[i].objectId == tiles[c].1
    ensures forall j :: i < j < |ms| ==> !Merge.Covers(ms[j], c)
  {
    i :| 0 <= i < |ms| && Merge.Covers(ms[i], c);
    assert Merge.Good(tiles, ms[i], tileset, layer);
  }

  /** After the merged terrain placements are marked, every collected
      terrain cell is placed and records the id its cell was collected
      with. */
  lemma TerrainRecorded(tiles: map<Pos, Merge.Tile>, ms: seq<Placement>, tileset: int, layer: int,
                        placed: set<TileKey>, existing: map<TileKey, int>, c: Pos)
    requires Merge.IsMergeOf(tiles, ms, tileset, layer) && c in tiles
    ensures Key(c, layer) in MarkPlaced(placed, ms, layer)
    ensures Key(c, layer) in MarkExisting(existing, ms, layer)
    ensures MarkExisting(existing, ms, layer)[Key(c, layer)] == tiles[c].1
  {
    var k := Key(c, layer);
    var i := LastCover(tiles, ms, tileset, layer, c);
    assert OnCell(k, ms[i], layer);
    MarkPlacedMembers(placed, ms, layer, k);
    MarkExistingLast(existing, ms, layer, k, i);
  }

  /** The whole finish: every outline position whose type has a brush id
      is placed afterwards, unless its key lies in an empty slope region. */
  lemma OutlineFullyPlaced(outline: seq<Pos>, ctx: Context, placed0: set<TileKey>, ms: seq<Placement>, c: Pos)
    requires Merge.IsMergeOf(FirstPass(outline, ctx, placed0).tiles, ms, ctx.tileset, ctx.layer)
    requires c in outline && AssignedId(ctx, c).Some? && Key(c, ctx.layer) !in ctx.empty
    ensures Key(c, ctx.layer) in MarkPlaced(FirstPass(outline, ctx, placed0).placed, ms, ctx.layer)
  {
    var p := FirstPass(outline, ctx, placed0);
    PassComplete(outline, ctx, placed0);
    MarkPlacedMembers(p.placed, ms, ctx.layer, Key(c, ctx.layer));
    if c in p.tiles {
      TerrainRecorded(p.tiles, ms, ctx.tileset, ctx.layer, p.placed, map[], c);
    }
  }

  // ----- the loops -----

  /** The slope marking loop: rows `dy`, then columns `dx`. */
  method MarkRect(placed: set<TileKey>, x: int, y: int, w: int, h: int, layer: int) returns (r: set<TileKey>)
    ensures r == placed + Rect(x, y, w, h, layer)
  {
    r := placed;
    for dy := 0 to Max(0, h)
      invariant r == placed + Rect(x, y, w, dy, layer)
    {
      for dx := 0 to Max(0, w)
        invariant r == placed + Rect(x, y, w, dy, layer) + Rect(x, y + dy, dx, 1, layer)
      {
        r := r + {(x + dx, y + dy, layer)};
      }
    }
  }

  /** The first pass as the engine runs it: one loop over the outline. */
  method RunFirstPass(outline: seq<Pos>, ctx: Context, placed0: set<TileKey>)
    returns (slopes: seq<Placement>, tiles: map<Pos, Merge.Tile>, order: seq<Pos>, placed: set<TileKey>)
    ensures Pass(slopes, tiles, order, placed) == FirstPass(outline, ctx, placed0)
  {
    slopes, tiles, order, placed := [], map[], [], placed0;
    for i := 0 to |outline|
      invariant Pass(slopes, tiles, order, placed) == FirstPass(outline[..i], ctx, placed0)
    {
      var pos := outline[i];
      assert outline[..i + 1][..i] == outline[..i];
      var key := (pos.0, pos.1, ctx.layer);
      if key in placed || key in ctx.empty {
        continue;
      }
      var tileType := if pos in ctx.types then ctx.types[pos] else Tile(Top);
      if tileType.Slope? {
        var id := Brush.Lookup(ctx.brush.slopes, Name(tileType.shape));
        if id.Some? {
          var dims := SlopeDimensions(Name(tileType.shape));
          slopes := slopes + [Placement(ctx.tileset, id.value, ctx.layer, pos.0, pos.1, dims.0, dims.1)];
          placed := MarkRect(placed, pos.0, pos.1, dims.0, dims.1, ctx.layer);
        }
      } else {
        var name := TerrainName(tileType.t);
        var id := Brush.Lookup(ctx.brush.terrain, name);
        if id.Some? {
          if pos !in tiles {
            order := order + [pos];
          }
          tiles := tiles[pos := (name, id.value)];
        }
      }
    }
    assert outline[..|outline|] == outline;
  }

  /** The marking loop over the merged terrain placements. */
  method MarkAll(placed0: set<TileKey>, existing0: map<TileKey, int>, ms: seq<Placement>, layer: int)
    returns (placed: set<TileKey>, existing: map<TileKey, int>)
    ensures placed == MarkPlaced(placed0, ms, layer)
    ensures existing == MarkExisting(existing0, ms, layer)
  {
    placed, existing := placed0, existing0;
    for i := 0 to |ms|
      invariant placed == MarkPlaced(placed0, ms[..i], layer)
      invariant existing == MarkExisting(existing0, ms[..i], layer)
    {
      assert ms[..i + 1][..i] == ms[..i];
      placed, existing := MarkPlacement(placed, existing, ms[i], layer);
    }
    assert ms[..|ms|] == ms;
  }

  predicate Marked(k: TileKey, pl: Placement, layer: int, dx: int, dy: int) {
    InRect(k, pl.x, pl.y, dx, pl.height, layer) || InRect(k, pl.x + dx, pl.y, 1, dy, layer)
  }

  /** The terrain marking loop for one placement: columns `dx`, then rows
      `dy`; each cell is placed and records the placement's id. */
  method MarkPlacement(placed: set<TileKey>, existing: map<TileKey, int>, pl: Placement, layer: int)
    returns (placed': set<TileKey>, existing': map<TileKey, int>)
    ensures placed' == placed + Cells(pl, layer)
    ensures existing' == Stamp(existing, Cells(pl, layer), pl.objectId)
  {
    placed', existing' := placed, existing;
    for dx := 0 to Max(0, pl.width)
      invariant forall k :: k in placed' <==> k in placed || Marked(k, pl, layer, dx, 0)
      invariant forall k :: k in existing' <==> k in existing || Marked(k, pl, layer, dx, 0)
      invariant forall k :: k in existing' ==> existing'[k] == if Marked(k, pl, layer, dx, 0) then pl.objectId else existing[k]
    {
      for dy := 0 to Max(0, pl.height)
        invariant forall k :: k in placed' <==> k in placed || Marked(k, pl, layer, dx, dy)
        invariant forall k :: k in existing' <==> k in existing || Marked(k, pl, layer, dx, dy)
        invariant forall k :: k in existing' ==> existing'[k] == if Marked(k, pl, layer, dx, dy) then pl.objectId else existing[k]
      {
        var px, py := pl.x + dx, pl.y + dy;
        placed' := placed' + {(px, py, layer)};
        existing' := existing'[(px, py, layer) := pl.objectId];
      }
    }
    assert forall k :: Marked(k, pl, layer, Max(0, pl.width), 0) <==> k in Cells(pl, layer);
  }
}
