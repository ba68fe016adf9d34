/** The neighbour scans of the terrain-aware painting step
    (`_check_existing_terrain`, `_get_tile_type_at`,
    `_check_corner_connections`): after a stroke, existing border tiles
    next to the new outline are deleted, turned into center tiles, or joined
    to it by a corner tile. */
module TerrainScan {
  import opened Common
  import opened TerrainAware
  import PyStr

  /** A key of the engine's tile map: `(x, y, layer)`. */
  type Key = (int, int, int)

  /** What the scans read from the engine: the stroke's outline positions
      and their tile types, the existing tile map (`None` for an unknown
      object), the positions the connection step already changed, the
      current layer and tileset, and the brush's two lookups (object id to
      tile type, tile type to object id). */
  datatype Scene = Scene(outline: seq<Pos>, types: map<Pos, string>, existing: map<Key, Option<int>>,
                         connection: set<Key>, layer: int, tileset: int,
                         typeOf: int -> Option<string>, terrainId: string -> Option<int>)

  function KeyOf(sc: Scene, c: Pos): Key {
    (c.0, c.1, sc.layer)
  }

  /** The outline's type at `p`, `top` when it has none. */
  function OutlineType(sc: Scene, p: Pos): string {
    if p in sc.types then sc.types[p] else "top"
  }

  /** `_get_tile_type_at`: the brush's name for the object at `(x, y)` on
      the current layer; None for an empty cell or an unknown object. */
  function TypeAt(sc: Scene, x: int, y: int): (r: Option<string>)
    ensures r.Some? ==> (x, y, sc.layer) in sc.existing && sc.existing[(x, y, sc.layer)].Some?
    ensures (x, y, sc.layer) in sc.existing && sc.existing[(x, y, sc.layer)].Some? ==>
              r == sc.typeOf(sc.existing[(x, y, sc.layer)].value)
  {
    var key := (x, y, sc.layer);
    if key !in sc.existing then None
    else match sc.existing[key]
      case None => None
      case Some(id) => sc.typeOf(id)
  }

  /** The neighbour of `p` in direction `d` and the one opposite. */
  function Out(p: Pos, d: Vec): Pos {
    (p.0 + d.0, p.1 + d.1)
  }

  function In(p: Pos, d: Vec): Pos {
    (p.0 - d.0, p.1 - d.1)
  }

  /** The existing tile at `c` faces `d` too and is not the same plain edge
      as the painted type `t` (two equal plain edges a tile apart are
      separate pieces of terrain and both stay). */
  predicate FacesAlike(sc: Scene, c: Pos, d: Vec, t: string) {
    var e := TypeAt(sc, c.0, c.1);
    e.Some? && HasBorderFacing(e.value, d) && !(IsEdge(e.value) && t == e.value)
  }

  /** The existing tile beyond the outline tile `p` in its border direction
      `d` is to be deleted. */
  predicate DeleteVia(sc: Scene, p: Pos, d: Vec) {
    var c := Out(p, d);
    KeyOf(sc, c) in sc.existing && KeyOf(sc, c) !in sc.connection && c !in sc.outline
    && FacesAlike(sc, c, d, OutlineType(sc, p))
  }

  /** The existing tile behind the outline tile `p`, against its border
      direction `d`, is to become a center tile. */
  predicate ReplaceVia(sc: Scene, p: Pos, d: Vec) {
    var c := In(p, d);
    KeyOf(sc, c) in sc.existing && c !in sc.outline && KeyOf(sc, c) !in sc.connection
    && FacesAlike(sc, c, d, OutlineType(sc, p))
  }

  /** The (position, direction) pairs the scan visits for the positions in
      `ps`: every border direction of every listed position. */
  ghost function PairsOf(sc: Scene, ps: seq<Pos>): set<(Pos, Vec)> {
    set p, d | p in ps && d in BorderDirections(OutlineType(sc, p)) :: (p, d)
  }

  /** Key `k` is deleted through one of the visited pairs. */
  ghost predicate DeletedBy(sc: Scene, seen: set<(Pos, Vec)>, k: Key) {
    exists pd :: pd in seen && k == KeyOf(sc, Out(pd.0, pd.1)) && DeleteVia(sc, pd.0, pd.1)
  }

  /** Key `k` is replaced through one of the visited pairs. */
  ghost predicate ReplacedBy(sc: Scene, seen: set<(Pos, Vec)>, k: Key) {
    exists pd :: pd in seen && k == KeyOf(sc, In(pd.0, pd.1)) && ReplaceVia(sc, pd.0, pd.1)
  }

  /** The one-cell center tile written at `k`; None when the brush has no
      center tile. */
  function CenterTile(sc: Scene, k: Key): Option<Placement> {
    match sc.terrainId("center")
    case None => None
    case Some(id) => Some(Placement(sc.tileset, id, sc.layer, k.0, k.1, 1, 1))
  }

  /** `deletions` lists each key some visited pair deletes, once. */
  ghost predicate DeleteState(sc: Scene, seen: set<(Pos, Vec)>, deletions: seq<Key>) {
    Distinct(deletions) && forall k :: k in deletions <==> DeletedBy(sc, seen, k)
  }

  /** `replaced` (`positions_to_replace`) holds the keys some visited pair
      replaces, none when the brush has no center tile, and `centers` has
      one center tile per replaced key, in the order of `rkeys`. */
  ghost predicate ReplaceState(sc: Scene, seen: set<(Pos, Vec)>, replaced: set<Key>,
                               centers: seq<Placement>, rkeys: seq<Key>) {
    Distinct(rkeys) && (forall k :: k in replaced <==> k in rkeys)
    && (forall k :: k in rkeys <==> sc.terrainId("center").Some? && ReplacedBy(sc, seen, k))
    && |centers| == |rkeys|
    && (forall i :: 0 <= i < |rkeys| ==> Some(centers[i]) == CenterTile(sc, rkeys[i]))
  }

  ghost predicate ScanState(sc: Scene, seen: set<(Pos, Vec)>, deletions: seq<Key>, replaced: set<Key>,
                            centers: seq<Placement>, rkeys: seq<Key>) {
    DeleteState(sc, seen, deletions) && ReplaceState(sc, seen, replaced, centers, rkeys)
  }

  lemma DeletedByAdd(sc: Scene, seen: set<(Pos, Vec)>, p: Pos, d: Vec, k: Key)
    ensures DeletedBy(sc, seen + {(p, d)}, k) <==>
              DeletedBy(sc, seen, k) || (k == KeyOf(sc, Out(p, d)) && DeleteVia(sc, p, d))
  {
    if k == KeyOf(sc, Out(p, d)) && DeleteVia(sc, p, d) {
      assert (p, d) in seen + {(p, d)};
    }
    if DeletedBy(sc, seen, k) {
      var pd :| pd in seen && k == KeyOf(sc, Out(pd.0, pd.1)) && DeleteVia(sc, pd.0, pd.1);
      assert pd in seen + {(p, d)};
    }
  }

  lemma ReplacedByAdd(sc: Scene, seen: set<(Pos, Vec)>, p: Pos, d: Vec, k: Key)
    ensures ReplacedBy(sc, seen + {(p, d)}, k) <==>
              ReplacedBy(sc, seen, k) || (k == KeyOf(sc, In(p, d)) && ReplaceVia(sc, p, d))
  {
    if k == KeyOf(sc, In(p, d)) && ReplaceVia(sc, p, d) {
      assert (p, d) in seen + {(p, d)};
    }
    if ReplacedBy(sc, seen, k) {
      var pd :| pd in seen && k == KeyOf(sc, In(pd.0, pd.1)) && ReplaceVia(sc, pd.0, pd.1);
      assert pd in seen + {(p, d)};
    }
  }

  /** The outside check of outline tile `p` in border direction `d`. */
  method VisitOutside(sc: Scene, p: Pos, d: Vec, ghost seen: set<(Pos, Vec)>, deletions: seq<Key>)
    returns (deletions': seq<Key>)
    requires DeleteState(sc, seen, deletions)
    ensures DeleteState(sc, seen + {(p, d)}, deletions')
  {
    deletions' := deletions;
    var t := OutlineType(sc, p);
    var outside := Out(p, d);
    var outsideKey := KeyOf(sc, outside);
    if outsideKey in sc.existing && outsideKey !in sc.connection && outside !in sc.outline {
      var existingType := TypeAt(sc, outside.0, outside.1);
      if existingType.Some? && HasBorderFacing(existingType.value, d) {
        if IsEdge(existingType.value) && t == existingType.value {
          // two equal plain edges coexist
        } else if outsideKey !in deletions' {
          deletions' := deletions' + [outsideKey];
        }
      }
    }
    forall k ensures k in deletions' <==> DeletedBy(sc, seen + {(p, d)}, k) {
      DeletedByAdd(sc, seen, p, d, k);
    }
  }

  /** The inside check of outline tile `p` in border direction `d`. */
  method VisitInside(sc: Scene, p: Pos, d: Vec, ghost seen: set<(Pos, Vec)>,
                     replaced: set<Key>, centers: seq<Placement>, ghost rkeys: seq<Key>)
    returns (replaced': set<Key>, centers': seq<Placement>, ghost rkeys': seq<Key>)
    requires ReplaceState(sc, seen, replaced, centers, rkeys)
    ensures ReplaceState(sc, seen + {(p, d)}, replaced', centers', rkeys')
  {
    replaced', centers', rkeys' := replaced, centers, rkeys;
    var t := OutlineType(sc, p);
    var inside := In(p, d);
    var insideKey := KeyOf(sc, inside);
    if insideKey in sc.existing && inside !in sc.outline && insideKey !in sc.connection && insideKey !in replaced' {
      var existingType := TypeAt(sc, inside.0, inside.1);
      if existingType.Some? && HasBorderFacing(existingType.value, d) && !(IsEdge(existingType.value) && t == existingType.value) {
        var centerId := sc.terrainId("center");
        if centerId.Some? {
          centers' := centers' + [Placement(sc.tileset, centerId.value, sc.layer, inside.0, inside.1, 1, 1)];
          replaced' := replaced' + {insideKey};
          rkeys' := rkeys' + [insideKey];
        }
      }
    }
    forall k ensures k in rkeys' <==> sc.terrainId("center").Some? && ReplacedBy(sc, seen + {(p, d)}, k) {
      ReplacedByAdd(sc, seen, p, d, k);
    }
  }

  /** A slope type has no border directions, so the scan's slope check
      only short-cuts work. */
  lemma SlopeHasNoBorder(t: string)
    requires PyStr.StartsWith(t, "slope_")
    ensures BorderDirections(t) == []
  {
    assert t[0] == 's';
  }

  lemma PairsOfStep(sc: Scene, ps: seq<Pos>, p: Pos)
    ensures PairsOf(sc, ps + [p]) == PairsOf(sc, ps) + set d | d in BorderDirections(OutlineType(sc, p)) :: (p, d)
  {
  }

  lemma DirsStep(p: Pos, dirs: seq<Vec>, j: nat)
    requires j < |dirs|
    ensures (set d | d in dirs[..j + 1] :: (p, d)) == (set d | d in dirs[..j] :: (p, d)) + {(p, dirs[j])}
  {
    assert dirs[..j + 1] == dirs[..j] + [dirs[j]];
  }

  /** The outside and inside checks over every border direction of every
      outline tile (the main loop of `_check_existing_terrain`): exactly
      the keys some visit deletes, each once, and one center tile per
      replaced key, each key replaced once; nothing is replaced when the
      brush has no center tile. */
  method ScanNeighbours(sc: Scene) returns (centers: seq<Placement>, deletions: seq<Key>, ghost rkeys: seq<Key>)
    ensures ScanState(sc, PairsOf(sc, sc.outline), deletions, (set k | k in rkeys), centers, rkeys)
  {
    deletions, centers, rkeys := [], [], [];
    var replaced: set<Key> := {};
    for i := 0 to |sc.outline|
      invariant ScanState(sc, PairsOf(sc, sc.outline[..i]), deletions, replaced, centers, rkeys)
    {
      var p := sc.outline[i];
      assert sc.outline[..i + 1] == sc.outline[..i] + [p];
      PairsOfStep(sc, sc.outline[..i], p);
      deletions, replaced, centers, rkeys := ScanTile(sc, p, PairsOf(sc, sc.outline[..i]), deletions, replaced, centers, rkeys);
    }
    assert sc.outline[..|sc.outline|] == sc.outline;
    assert replaced == set k | k in rkeys;
  }

  /** Both checks over every border direction of one outline tile; a slope
      tile has none. */
  method ScanTile(sc: Scene, p: Pos, ghost seen: set<(Pos, Vec)>, deletions: seq<Key>, replaced: set<Key>,
                  centers: seq<Placement>, ghost rkeys: seq<Key>)
    returns (deletions': seq<Key>, replaced': set<Key>, centers': seq<Placement>, ghost rkeys': seq<Key>)
    requires ScanState(sc, seen, deletions, replaced, centers, rkeys)
    ensures ScanState(sc, seen + set d | d in BorderDirections(OutlineType(sc, p)) :: (p, d),
                      deletions', replaced', centers', rkeys')
  {
    deletions', replaced', centers', rkeys' := deletions, replaced, centers, rkeys;
    var t := OutlineType(sc, p);
    if PyStr.StartsWith(t, "slope_") {
      SlopeHasNoBorder(t);
      assert (set d | d in BorderDirections(t) :: (p, d)) == {};
      return;
    }
    var dirs := BorderDirections(t);
    ghost var cur := seen;
    for j := 0 to |dirs|
      invariant cur == seen + set d | d in dirs[..j] :: (p, d)
      invariant ScanState(sc, cur, deletions', replaced', centers', rkeys')
    {
      deletions' := VisitOutside(sc, p, dirs[j], cur, deletions');
      replaced', centers', rkeys' := VisitInside(sc, p, dirs[j], cur, replaced', centers', rkeys');
      DirsStep(p, dirs, j);
      cur := cur + {(p, dirs[j])};
    }
    assert dirs[..|dirs|] == dirs;
  }

  /** Nothing the scan changes is on the outline or among the keys the
      connection step protects, and every changed tile faces the same way as
      the outline tile it was found from. */
  lemma ScanProtects(sc: Scene, k: Key)
    ensures DeletedBy(sc, PairsOf(sc, sc.outline), k) || ReplacedBy(sc, PairsOf(sc, sc.outline), k) ==>
              k.2 == sc.layer && k in sc.existing && k !in sc.connection && (k.0, k.1) !in sc.outline
    ensures DeletedBy(sc, PairsOf(sc, sc.outline), k) ==>
              exists p, d :: p in sc.outline && d in BorderDirections(OutlineType(sc, p)) && k == KeyOf(sc, Out(p, d))
                             && FacesAlike(sc, (k.0, k.1), d, OutlineType(sc, p))
  {
    if DeletedBy(sc, PairsOf(sc, sc.outline), k) {
      var pd :| pd in PairsOf(sc, sc.outline) && k == KeyOf(sc, Out(pd.0, pd.1)) && DeleteVia(sc, pd.0, pd.1);
      assert pd.0 in sc.outline && pd.1 in BorderDirections(OutlineType(sc, pd.0));
    }
  }

  /** Python's tuple order on positions. */
  predicate PosLess(a: Pos, b: Pos) {
    a.0 < b.0 || (a.0 == b.0 && a.1 < b.1)
  }

  /** `(min(a, b), max(a, b))`, the key of an unordered pair. */
  function PairKey(a: Pos, b: Pos): (r: (Pos, Pos))
    ensures {r.0, r.1} == {a, b}
    ensures a != b ==> PosLess(r.0, r.1)
  {
    if PosLess(b, a) then (b, a) else (a, b)
  }

  /** The corner tile `_check_corner_connections` adds for outline tiles
      `a` and `b`: they are perpendicular plain edges on diagonal
      neighbours, the gap cell between them is not on the outline, and the
      brush has a tile for the corner type. */
  function Corner(sc: Scene, a: Pos, b: Pos): Option<Placement> {
    var ta := OutlineType(sc, a);
    var tb := OutlineType(sc, b);
    if a == b || !ArePerpendicular(ta, tb) || Abs(a.0 - b.0) > 1 || Abs(a.1 - b.1) > 1 then None
    else match FindCornerGap(a, ta, b, tb)
      case None => None
      case Some(c) =>
        if c in sc.outline then None
        else match DetermineCornerType(ta, tb, a, b)
          case None => None
          case Some(ct) =>
            match sc.terrainId(ct)
            case None => None
            case Some(id) => Some(Placement(sc.tileset, id, sc.layer, c.0, c.1, 1, 1))
  }

  /** The order of the two tiles does not matter, which is why the source
      checks each unordered pair once. */
  lemma CornerSymmetric(sc: Scene, a: Pos, b: Pos)
    ensures Corner(sc, a, b) == Corner(sc, b, a)
  {
    var ta := OutlineType(sc, a);
    var tb := OutlineType(sc, b);
    EdgeRelations(ta, tb);
    if ArePerpendicular(ta, tb) {
      CornerGapSymmetric(a, ta, b, tb);
      CornerFunctionsAgree(ta, tb, a, b);
      CornerFunctionsAgree(tb, ta, b, a);
      CornerFromEdgesMeaning(ta, tb);
    }
  }

  /** A corner tile sits on the free cell next to both tiles, where their
      edge lines meet, and is the brush's outer corner named after the
      horizontal edge then the vertical one. */
  lemma CornerMeaning(sc: Scene, a: Pos, b: Pos)
    requires Corner(sc, a, b).Some?
    ensures var ta := OutlineType(sc, a);
            var tb := OutlineType(sc, b);
            var pl := Corner(sc, a, b).value;
            var c := (pl.x, pl.y);
            var (h, v) := if IsHorizontalEdge(ta) then (ta, tb) else (tb, ta);
            ArePerpendicular(ta, tb) && Abs(a.0 - b.0) == 1 && Abs(a.1 - b.1) == 1
            && c !in sc.outline && Abs(c.0 - a.0) + Abs(c.1 - a.1) == 1 && Abs(c.0 - b.0) + Abs(c.1 - b.1) == 1
            && Some(c) == FindCornerPosition(a, ta, b, tb)
            && pl.width == 1 && pl.height == 1 && pl.layer == sc.layer && pl.tileset == sc.tileset
            && sc.terrainId(CornerName(h, v)) == Some(pl.objectId)
  {
    var ta := OutlineType(sc, a);
    var tb := OutlineType(sc, b);
    CornerGapSymmetric(a, ta, b, tb);
    CornerFunctionsAgree(ta, tb, a, b);
    CornerFromEdgesMeaning(ta, tb);
    CornerFromEdgesMeaning(tb, ta);
  }

  /** The border tiles of the outline (the `border_tiles` dict): each
      outline position with a plain edge type, once, in first-seen order. */
  method BorderTiles(sc: Scene) returns (border: seq<Pos>)
    ensures Distinct(border)
    ensures forall p :: p in border <==> p in sc.outline && IsEdge(OutlineType(sc, p))
  {
    border := [];
    for i := 0 to |sc.outline|
      invariant Distinct(border)
      invariant forall p :: p in border <==> p in sc.outline[..i] && IsEdge(OutlineType(sc, p))
    {
      var p := sc.outline[i];
      assert sc.outline[..i + 1] == sc.outline[..i] + [p];
      if IsEdge(OutlineType(sc, p)) && p !in border {
        border := border + [p];
      }
    }
    assert sc.outline[..|sc.outline|] == sc.outline;
  }

  /** The emitted corners so far: one per checked pair whose corner
      exists, in the order of `pairs`, each pair once, smaller position
      first. */
  ghost predicate CornerState(sc: Scene, checked: set<(Pos, Pos)>, corners: seq<Placement>, pairs: seq<(Pos, Pos)>) {
    |corners| == |pairs| && Distinct(pairs)
    && (forall i :: 0 <= i < |pairs| ==> Some(corners[i]) == Corner(sc, pairs[i].0, pairs[i].1))
    && (forall i :: 0 <= i < |pairs| ==> PosLess(pairs[i].0, pairs[i].1) && pairs[i] in checked)
    && (forall q :: q in checked && Corner(sc, q.0, q.1).Some? ==> q in pairs)
  }

  /** One inner step of the pair loop. */
  method CheckPair(sc: Scene, pos1: Pos, pos2: Pos, checked: set<(Pos, Pos)>, corners: seq<Placement>,
                   ghost pairs: seq<(Pos, Pos)>)
    returns (checked': set<(Pos, Pos)>, corners': seq<Placement>, ghost pairs': seq<(Pos, Pos)>)
    requires CornerState(sc, checked, corners, pairs)
    ensures CornerState(sc, checked', corners', pairs')
    ensures checked' == if pos1 == pos2 then checked else checked + {PairKey(pos1, pos2)}
  {
    checked', corners', pairs' := checked, corners, pairs;
    if pos1 == pos2 {
      return;
    }
    var key := PairKey(pos1, pos2);
    if key in checked {
      return;
    }
    checked' := checked + {key};
    var found: Option<Placement> := None;
    var type1 := OutlineType(sc, pos1);
    var type2 := OutlineType(sc, pos2);
    if ArePerpendicular(type1, type2) && Abs(pos1.0 - pos2.0) <= 1 && Abs(pos1.1 - pos2.1) <= 1 {
      var cornerPos := FindCornerGap(pos1, type1, pos2, type2);
      if cornerPos.Some? && cornerPos.value !in sc.outline {
        var cornerType := DetermineCornerType(type1, type2, pos1, pos2);
        if cornerType.Some? {
          var tileId := sc.terrainId(cornerType.value);
          if tileId.Some? {
            var c := cornerPos.value;
            found := Some(Placement(sc.tileset, tileId.value, sc.layer, c.0, c.1, 1, 1));
          }
        }
      }
    }
    assert found == Corner(sc, pos1, pos2);
    CornerSymmetric(sc, pos1, pos2);
    CheckedAdd(sc, checked, corners, pairs, key);
    if found.Some? {
      corners' := corners + [found.value];
      pairs' := pairs + [key];
    }
  }

  /** Checking a new pair keeps the corner state once its corner, if any,
      is emitted. */
  lemma CheckedAdd(sc: Scene, checked: set<(Pos, Pos)>, corners: seq<Placement>, pairs: seq<(Pos, Pos)>,
                   key: (Pos, Pos))
    requires CornerState(sc, checked, corners, pairs)
    requires key !in checked && PosLess(key.0, key.1)
    ensures Corner(sc, key.0, key.1).None? ==> CornerState(sc, checked + {key}, corners, pairs)
    ensures Corner(sc, key.0, key.1).Some? ==>
              CornerState(sc, checked + {key}, corners + [Corner(sc, key.0, key.1).value], pairs + [key])
  {
    var checked' := checked + {key};
    assert key !in pairs;
    if Corner(sc, key.0, key.1).Some? {
      var corners', pairs' := corners + [Corner(sc, key.0, key.1).value], pairs + [key];
      forall i | 0 <= i < |pairs'|
        ensures Some(corners'[i]) == Corner(sc, pairs'[i].0, pairs'[i].1)
        ensures PosLess(pairs'[i].0, pairs'[i].1) && pairs'[i] in checked'
      {
        if i < |pairs| {
          assert pairs'[i] == pairs[i] && corners'[i] == corners[i];
        }
      }
      forall i, j | 0 <= i < j < |pairs'| ensures pairs'[i] != pairs'[j] {
        assert pairs'[i] == pairs[i];
        if j < |pairs| {
          assert pairs'[j] == pairs[j];
        }
      }
      forall q | q in checked' && Corner(sc, q.0, q.1).Some? ensures q in pairs' {
        if q != key {
          assert q in pairs;
        }
      }
    }
  }

  /** The inner loop: tile `border[i]` against every border tile. */
  method CheckRow(sc: Scene, border: seq<Pos>, i: nat, checked: set<(Pos, Pos)>, corners: seq<Placement>,
                  ghost pairs: seq<(Pos, Pos)>)
    returns (checked': set<(Pos, Pos)>, corners': seq<Placement>, ghost pairs': seq<(Pos, Pos)>)
    requires i < |border|
    requires CornerState(sc, checked, corners, pairs)
    requires forall x, y :: 0 <= x < i && 0 <= y < |border| && border[x] != border[y] ==>
               PairKey(border[x], border[y]) in checked
    ensures CornerState(sc, checked', corners', pairs')
    ensures forall x, y :: 0 <= x <= i && 0 <= y < |border| && border[x] != border[y] ==>
              PairKey(border[x], border[y]) in checked'
  {
    checked', corners', pairs' := checked, corners, pairs;
    for j := 0 to |border|
      invariant CornerState(sc, checked', corners', pairs')
      invariant checked <= checked'
      invariant forall y :: 0 <= y < j && border[i] != border[y] ==> PairKey(border[i], border[y]) in checked'
    {
      checked', corners', pairs' := CheckPair(sc, border[i], border[j], checked', corners', pairs');
    }
  }

  /** `_check_corner_connections`: one corner tile for each unordered pair
      of outline tiles whose corner exists, and no other. */
  method CheckCornerConnections(sc: Scene) returns (corners: seq<Placement>, ghost pairs: seq<(Pos, Pos)>)
    ensures CornerState(sc, (set q | q in pairs), corners, pairs)
    ensures forall a, b :: a in sc.outline && b in sc.outline && Corner(sc, a, b).Some? ==> PairKey(a, b) in pairs
  {
    var border := BorderTiles(sc);
    corners, pairs := [], [];
    var checked: set<(Pos, Pos)> := {};
    for i := 0 to |border|
      invariant CornerState(sc, checked, corners, pairs)
      invariant forall x, y :: 0 <= x < i && 0 <= y < |border| && border[x] != border[y] ==>
                  PairKey(border[x], border[y]) in checked
    {
      checked, corners, pairs := CheckRow(sc, border, i, checked, corners, pairs);
    }
    CornersFromBorder(sc, border, checked, corners, pairs);
    CornerPairsChecked(sc, checked, corners, pairs);
  }

  /** Once every pair of distinct border tiles is checked, every pair of
      outline tiles with a corner has emitted it. */
  lemma CornersFromBorder(sc: Scene, border: seq<Pos>, checked: set<(Pos, Pos)>, corners: seq<Placement>,
                          pairs: seq<(Pos, Pos)>)
    requires CornerState(sc, checked, corners, pairs)
    requires forall p :: p in border <==> p in sc.outline && IsEdge(OutlineType(sc, p))
    requires forall x, y :: 0 <= x < |border| && 0 <= y < |border| && border[x] != border[y] ==>
               PairKey(border[x], border[y]) in checked
    ensures forall a, b :: a in sc.outline && b in sc.outline && Corner(sc, a, b).Some? ==> PairKey(a, b) in pairs
  {
    forall a, b | a in sc.outline && b in sc.outline && Corner(sc, a, b).Some?
      ensures PairKey(a, b) in pairs
    {
      CornerNeedsEdges(sc, a, b);
      CornerSymmetric(sc, a, b);
      var x :| 0 <= x < |border| && border[x] == a;
      var y :| 0 <= y < |border| && border[y] == b;
      var q := PairKey(a, b);
      assert q in checked;
      assert Corner(sc, q.0, q.1).Some?;
    }
  }

  /** A corner needs two distinct edge tiles. */
  lemma CornerNeedsEdges(sc: Scene, a: Pos, b: Pos)
    requires Corner(sc, a, b).Some?
    ensures a != b && IsEdge(OutlineType(sc, a)) && IsEdge(OutlineType(sc, b))
  {
    EdgeRelations(OutlineType(sc, a), OutlineType(sc, b));
  }

  /** Once every pair is in `pairs` that should be, the checked set can be
      replaced by the set of emitted pairs. */
  lemma CornerPairsChecked(sc: Scene, checked: set<(Pos, Pos)>, corners: seq<Placement>, pairs: seq<(Pos, Pos)>)
    requires CornerState(sc, checked, corners, pairs)
    ensures CornerState(sc, (set q | q in pairs), corners, pairs)
  {
  }

  /** `_check_existing_terrain`: the center tiles of the neighbour scan,
      then the corner tiles, and the deletions. */
  method CheckExistingTerrain(sc: Scene)
    returns (placements: seq<Placement>, deletions: seq<Key>, ghost rkeys: seq<Key>, ghost pairs: seq<(Pos, Pos)>)
    ensures |rkeys| <= |placements|
    ensures ScanState(sc, PairsOf(sc, sc.outline), deletions, (set k | k in rkeys), placements[..|rkeys|], rkeys)
    ensures CornerState(sc, (set q | q in pairs), placements[|rkeys|..], pairs)
    ensures forall a, b :: a in sc.outline && b in sc.outline && Corner(sc, a, b).Some? ==> PairKey(a, b) in pairs
  {
    var centers;
    centers, deletions, rkeys := ScanNeighbours(sc);
    var corners;
    corners, pairs := CheckCornerConnections(sc);
    placements := centers + corners;
    assert placements[..|rkeys|] == centers;
    assert placements[|rkeys|..] == corners;
  }
}
