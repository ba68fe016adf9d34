/** Tile merging of the painting engine (`_merge_consecutive_tiles` and
    `_remerge_placements`): runs of equal terrain tiles along a row or a
    column collapse into one multi-tile placement. */
module Merge {
  import opened Common
  import PyStr
  import Brush
  import Tiles

  /** A painted tile: its type key and the object id the brush gives it. */
  type Tile = (string, int)

  /** The merge direction of a tile type: `Some(true)` for the horizontally
      merged types top, bottom and center, `Some(false)` for the vertically
      merged left and right, `None` for every other type (placed 1×1). */
  function MergeAxis(t: string): Option<bool> {
    if t == "top" || t == "bottom" || t == "center" then Some(true)
    else if t == "left" || t == "right" then Some(false)
    else None
  }

  /** The cell `i` steps from `p` along the merge axis. */
  function Shift(p: Pos, h: bool, i: int): Pos {
    if h then (p.0 + i, p.1) else (p.0, p.1 + i)
  }

  /** Cell `p` holds exactly tile `v`. */
  predicate Same(tiles: map<Pos, Tile>, p: Pos, v: Tile) {
    p in tiles && tiles[p] == v
  }

  /** Cell `c` is one of the `len` cells starting at `s` along the axis. */
  predicate InRun(s: Pos, h: bool, len: int, c: Pos) {
    if h then c.1 == s.1 && s.0 <= c.0 < s.0 + len
    else c.0 == s.0 && s.1 <= c.1 < s.1 + len
  }

  predicate Covers(pl: Placement, c: Pos) {
    pl.x <= c.0 < pl.x + pl.width && pl.y <= c.1 < pl.y + pl.height
  }

  function Origin(pl: Placement): Pos {
    (pl.x, pl.y)
  }

  /** The placement of a run of `len` cells from `s`. */
  function RunPlacement(tileset: int, layer: int, s: Pos, h: bool, len: nat, id: int): (pl: Placement)
    ensures forall c :: Covers(pl, c) <==> InRun(s, h, len, c)
  {
    Placement(tileset, id, layer, s.0, s.1, if h then len else 1, if h then 1 else len)
  }

  /** Keys of `tiles` on the merge line of `p`, strictly before it. */
  function Behind(tiles: map<Pos, Tile>, p: Pos, h: bool): set<Pos> {
    set q | q in tiles && (if h then q.1 == p.1 && q.0 < p.0 else q.0 == p.0 && q.1 < p.1)
  }

  /** Keys of `tiles` on the merge line of `p`, at or after it. */
  function Ahead(tiles: map<Pos, Tile>, p: Pos, h: bool): set<Pos> {
    set q | q in tiles && (if h then q.1 == p.1 && q.0 >= p.0 else q.0 == p.0 && q.1 >= p.1)
  }

  lemma BehindShrinks(tiles: map<Pos, Tile>, p: Pos, h: bool)
    requires Shift(p, h, -1) in tiles
    ensures |Behind(tiles, Shift(p, h, -1), h)| < |Behind(tiles, p, h)|
  {
    var a, b := Behind(tiles, Shift(p, h, -1), h), Behind(tiles, p, h);
    assert Shift(p, h, -1) in b - a;
    StrictSubsetSmaller(a, b);
  }

  lemma AheadShrinks(tiles: map<Pos, Tile>, p: Pos, h: bool)
    requires p in tiles
    ensures |Ahead(tiles, Shift(p, h, 1), h)| < |Ahead(tiles, p, h)|
  {
    var a, b := Ahead(tiles, Shift(p, h, 1), h), Ahead(tiles, p, h);
    assert p in b - a;
    StrictSubsetSmaller(a, b);
  }

  lemma StrictSubsetSmaller(a: set<Pos>, b: set<Pos>)
    requires a <= b && (b - a) != {}
    ensures |a| < |b|
  {
    assert b == a + (b - a);
  }

  /** The backward scan: from `p`, step back while the previous cell holds
      the same (type, id). The result is the first cell of the run. */
  method RunStart(tiles: map<Pos, Tile>, p: Pos, h: bool) returns (s: Pos, ghost k: nat)
    requires p in tiles
    ensures p == Shift(s, h, k)
    ensures forall c :: InRun(s, h, k + 1, c) ==> Same(tiles, c, tiles[p])
    ensures !Same(tiles, Shift(s, h, -1), tiles[p])
  {
    s, k := p, 0;
    while Shift(s, h, -1) in tiles && tiles[Shift(s, h, -1)] == tiles[p]
      invariant p == Shift(s, h, k)
      invariant forall c :: InRun(s, h, k + 1, c) ==> Same(tiles, c, tiles[p])
      decreases |Behind(tiles, s, h)|
    {
      BehindShrinks(tiles, s, h);
      s, k := Shift(s, h, -1), k + 1;
    }
  }

  /** The forward scan from the run start `s`: counts the run and marks
      each of its cells processed (`owner` records, for the proof, which
      placement each processed cell belongs to). */
  method ExtendRun(tiles: map<Pos, Tile>, s: Pos, h: bool, processed: set<Pos>,
                   ghost owner: map<Pos, nat>, ghost idx: nat)
    returns (len: nat, processed': set<Pos>, ghost owner': map<Pos, nat>)
    requires s in tiles
    ensures len >= 1
    ensures forall c :: InRun(s, h, len, c) ==> Same(tiles, c, tiles[s])
    ensures !Same(tiles, Shift(s, h, len), tiles[s])
    ensures forall c :: c in processed' <==> c in processed || InRun(s, h, len, c)
    ensures forall c :: c in owner' <==> c in owner || InRun(s, h, len, c)
    ensures forall c :: c in owner' ==> owner'[c] == if InRun(s, h, len, c) then idx else owner[c]
  {
    processed' := processed + {s};
    owner' := owner[s := idx];
    len := 1;
    var n := Shift(s, h, 1);
    while n in tiles && tiles[n] == tiles[s]
      invariant len >= 1 && n == Shift(s, h, len)
      invariant forall c :: InRun(s, h, len, c) ==> Same(tiles, c, tiles[s])
      invariant forall c :: c in processed' <==> c in processed || InRun(s, h, len, c)
      invariant forall c :: c in owner' <==> c in owner || InRun(s, h, len, c)
      invariant forall c :: c in owner' ==> owner'[c] == if InRun(s, h, len, c) then idx else owner[c]
      decreases |Ahead(tiles, n, h)|
    {
      AheadShrinks(tiles, n, h);
      processed' := processed' + {n};
      owner' := owner'[n := idx];
      len := len + 1;
      n := Shift(n, h, 1);
    }
  }

  /** The shape rule: top/bottom/center placements are one row high,
      left/right placements one column wide, every other type 1×1. */
  predicate Shape(t: string, pl: Placement) {
    match MergeAxis(t)
    case Some(true) => pl.height == 1 && pl.width >= 1
    case Some(false) => pl.width == 1 && pl.height >= 1
    case None => pl.width == 1 && pl.height == 1
  }

  /** One output placement: on the given tileset and layer, carrying the id
      of its origin tile, shaped by the origin's type, covering only cells
      with the origin's (type, id), and, for a merged run, maximal: the
      cells just before and just after it hold something else. */
  ghost predicate Good(tiles: map<Pos, Tile>, pl: Placement, tileset: int, layer: int) {
    && pl.tileset == tileset && pl.layer == layer
    && Origin(pl) in tiles
    && pl.objectId == tiles[Origin(pl)].1
    && Shape(tiles[Origin(pl)].0, pl)
    && (forall c :: Covers(pl, c) ==> Same(tiles, c, tiles[Origin(pl)]))
    && (MergeAxis(tiles[Origin(pl)].0).Some? ==>
          var h := MergeAxis(tiles[Origin(pl)].0).value;
          var len := if h then pl.width else pl.height;
          !Same(tiles, Shift(Origin(pl), h, -1), tiles[Origin(pl)])
          && !Same(tiles, Shift(Origin(pl), h, len), tiles[Origin(pl)]))
  }

  /** What `_merge_consecutive_tiles` delivers: every placement is `Good`,
      every input cell is covered, and no cell is covered twice. */
  ghost predicate IsMergeOf(tiles: map<Pos, Tile>, ps: seq<Placement>, tileset: int, layer: int) {
    && (forall i :: 0 <= i < |ps| ==> Good(tiles, ps[i], tileset, layer))
    && (forall c :: c in tiles ==> exists i :: 0 <= i < |ps| && Covers(ps[i], c))
    && (forall i, j, c :: 0 <= i < j < |ps| && Covers(ps[i], c) ==> !Covers(ps[j], c))
  }

  /** `d` is the cell just before or just after `c` along `c`'s merge
      axis, and holds the same tile. */
  predicate Linked(tiles: map<Pos, Tile>, c: Pos, d: Pos) {
    && c in tiles && MergeAxis(tiles[c].0).Some?
    && (d == Shift(c, MergeAxis(tiles[c].0).value, 1) || d == Shift(c, MergeAxis(tiles[c].0).value, -1))
    && Same(tiles, d, tiles[c])
  }

  /** Processed cells come in whole runs: the linked neighbours of a
      processed cell are processed too. */
  ghost predicate Closed(tiles: map<Pos, Tile>, processed: set<Pos>) {
    forall c, d {:trigger Linked(tiles, c, d)} :: c in processed && Linked(tiles, c, d) ==> d in processed
  }

  /** The loop invariant of the merge: `owner` maps each processed cell to
      the one placement that covers it. */
  ghost predicate Inv(tiles: map<Pos, Tile>, processed: set<Pos>, owner: map<Pos, nat>,
                      ps: seq<Placement>, tileset: int, layer: int) {
    && (forall c :: c in processed ==> c in tiles)
    && (forall c :: c in owner <==> c in processed)
    && (forall c :: c in owner ==> owner[c] < |ps| && Covers(ps[owner[c]], c))
    && (forall i, c :: 0 <= i < |ps| && Covers(ps[i], c) ==> c in owner && owner[c] == i)
    && (forall i :: 0 <= i < |ps| ==> Good(tiles, ps[i], tileset, layer))
    && Closed(tiles, processed)
  }

  /** Walking back along a run of equal cells from an unprocessed cell
      meets only unprocessed cells. */
  lemma {:induction false} StartUnprocessed(tiles: map<Pos, Tile>, processed: set<Pos>, s: Pos, h: bool, k: nat)
    requires Closed(tiles, processed)
    requires s in tiles && MergeAxis(tiles[s].0) == Some(h)
    requires forall c :: InRun(s, h, k + 1, c) ==> Same(tiles, c, tiles[s])
    requires Shift(s, h, k) !in processed
    ensures s !in processed
    decreases k
  {
    if k > 0 {
      var c := Shift(s, h, k - 1);
      assert InRun(s, h, k + 1, c) && InRun(s, h, k + 1, Shift(s, h, k));
      assert Same(tiles, c, tiles[s]) && Same(tiles, Shift(s, h, k), tiles[s]);
      assert Linked(tiles, c, Shift(s, h, k));
      StartUnprocessed(tiles, processed, s, h, k - 1);
    }
  }

  /** Walking forward along a run of equal cells from an unprocessed start
      meets only unprocessed cells. */
  lemma {:induction false} RunUnprocessed(tiles: map<Pos, Tile>, processed: set<Pos>, s: Pos, h: bool, len: nat)
    requires Closed(tiles, processed)
    requires s in tiles && MergeAxis(tiles[s].0) == Some(h)
    requires forall c :: InRun(s, h, len, c) ==> Same(tiles, c, tiles[s])
    requires s !in processed
    ensures forall c :: InRun(s, h, len, c) ==> c !in processed
    decreases len
  {
    if len > 1 {
      RunUnprocessed(tiles, processed, s, h, len - 1);
      var c := Shift(s, h, len - 1);
      assert InRun(s, h, len, c) && InRun(s, h, len - 1, Shift(s, h, len - 2));
      assert Same(tiles, c, tiles[s]) && Same(tiles, Shift(s, h, len - 2), tiles[s]);
      assert Linked(tiles, c, Shift(s, h, len - 2));
      forall d | InRun(s, h, len, d) ensures d !in processed {
        if d != c {
          assert InRun(s, h, len - 1, d);
        }
      }
    } else {
      forall d | InRun(s, h, len, d) ensures d !in processed {
        assert d == s;
      }
    }
  }

  /** Adding a maximal run of fresh cells as one placement keeps the
      invariant. */
  lemma EmitRun(tiles: map<Pos, Tile>, processed: set<Pos>, owner: map<Pos, nat>, ps: seq<Placement>,
                tileset: int, layer: int, s: Pos, h: bool, len: nat,
                processed': set<Pos>, owner': map<Pos, nat>)
    requires Inv(tiles, processed, owner, ps, tileset, layer)
    requires s in tiles && MergeAxis(tiles[s].0) == Some(h) && len >= 1
    requires forall c :: InRun(s, h, len, c) ==> Same(tiles, c, tiles[s])
    requires forall c :: InRun(s, h, len, c) ==> c !in processed
    requires !Same(tiles, Shift(s, h, -1), tiles[s]) && !Same(tiles, Shift(s, h, len), tiles[s])
    requires forall c :: c in processed' <==> c in processed || InRun(s, h, len, c)
    requires forall c :: c in owner' <==> c in owner || InRun(s, h, len, c)
    requires forall c :: c in owner' ==> owner'[c] == if InRun(s, h, len, c) then |ps| else owner[c]
    ensures Inv(tiles, processed', owner', ps + [RunPlacement(tileset, layer, s, h, len, tiles[s].1)], tileset, layer)
  {
    var pl := RunPlacement(tileset, layer, s, h, len, tiles[s].1);
    GoodRun(tiles, tileset, layer, s, h, len);
    AllGoodAppend(tiles, ps, pl, tileset, layer);
    RunClosed(tiles, processed, s, h, len, processed');
    RunOwned(processed, owner, ps, s, h, len, pl, owner');
  }

  /** A maximal run of equal tiles makes a `Good` placement. */
  lemma GoodRun(tiles: map<Pos, Tile>, tileset: int, layer: int, s: Pos, h: bool, len: nat)
    requires s in tiles && MergeAxis(tiles[s].0) == Some(h) && len >= 1
    requires forall c :: InRun(s, h, len, c) ==> Same(tiles, c, tiles[s])
    requires !Same(tiles, Shift(s, h, -1), tiles[s]) && !Same(tiles, Shift(s, h, len), tiles[s])
    ensures Good(tiles, RunPlacement(tileset, layer, s, h, len, tiles[s].1), tileset, layer)
  {
  }

  lemma AllGoodAppend(tiles: map<Pos, Tile>, ps: seq<Placement>, pl: Placement, tileset: int, layer: int)
    requires forall i :: 0 <= i < |ps| ==> Good(tiles, ps[i], tileset, layer)
    requires Good(tiles, pl, tileset, layer)
    ensures forall i :: 0 <= i < |ps + [pl]| ==> Good(tiles, (ps + [pl])[i], tileset, layer)
  {
  }

  /** The new placement owns exactly the run's cells; the older ones keep
      theirs. */
  lemma RunOwned(processed: set<Pos>, owner: map<Pos, nat>, ps: seq<Placement>, s: Pos, h: bool, len: nat,
                 pl: Placement, owner': map<Pos, nat>)
    requires forall c :: c in owner <==> c in processed
    requires forall c :: c in owner ==> owner[c] < |ps| && Covers(ps[owner[c]], c)
    requires forall i, c :: 0 <= i < |ps| && Covers(ps[i], c) ==> c in owner && owner[c] == i
    requires forall c :: Covers(pl, c) <==> InRun(s, h, len, c)
    requires forall c :: InRun(s, h, len, c) ==> c !in processed
    requires forall c :: c in owner' <==> c in owner || InRun(s, h, len, c)
    requires forall c :: c in owner' ==> owner'[c] == if InRun(s, h, len, c) then |ps| else owner[c]
    ensures forall c :: c in owner' ==> owner'[c] < |ps + [pl]| && Covers((ps + [pl])[owner'[c]], c)
    ensures forall i, c :: 0 <= i < |ps + [pl]| && Covers((ps + [pl])[i], c) ==> c in owner' && owner'[c] == i
  {
    var ps' := ps + [pl];
    forall i, c | 0 <= i < |ps'| && Covers(ps'[i], c) ensures c in owner' && owner'[c] == i {
      if i < |ps| {
        assert ps'[i] == ps[i];
      }
    }
  }

  /** Adding a maximal run to a run-closed set of cells keeps it closed. */
  lemma RunClosed(tiles: map<Pos, Tile>, processed: set<Pos>, s: Pos, h: bool, len: nat, processed': set<Pos>)
    requires Closed(tiles, processed)
    requires s in tiles && MergeAxis(tiles[s].0) == Some(h)
    requires forall c :: InRun(s, h, len, c) ==> Same(tiles, c, tiles[s])
    requires !Same(tiles, Shift(s, h, -1), tiles[s]) && !Same(tiles, Shift(s, h, len), tiles[s])
    requires forall c :: c in processed' <==> c in processed || InRun(s, h, len, c)
    ensures Closed(tiles, processed')
  {
    forall c, d | c in processed' && Linked(tiles, c, d) ensures d in processed' {
      if InRun(s, h, len, c) {
        assert tiles[c] == tiles[s];
        assert InRun(s, h, len, d);
      }
    }
  }

  /** Adding one fresh non-mergeable cell as a 1×1 placement keeps the
      invariant. */
  lemma EmitSingle(tiles: map<Pos, Tile>, processed: set<Pos>, owner: map<Pos, nat>, ps: seq<Placement>,
                   tileset: int, layer: int, pos: Pos)
    requires Inv(tiles, processed, owner, ps, tileset, layer)
    requires pos in tiles && pos !in processed && MergeAxis(tiles[pos].0).None?
    ensures Inv(tiles, processed + {pos}, owner[pos := |ps|],
                ps + [Placement(tileset, tiles[pos].1, layer, pos.0, pos.1, 1, 1)], tileset, layer)
  {
    var pl := Placement(tileset, tiles[pos].1, layer, pos.0, pos.1, 1, 1);
    var ps' := ps + [pl];
    assert Good(tiles, pl, tileset, layer);
    forall i, c | 0 <= i < |ps'| && Covers(ps'[i], c) ensures c in owner[pos := |ps|] && owner[pos := |ps|][c] == i {
      if i < |ps| {
        assert ps'[i] == ps[i];
      }
    }
  }

  /** Once every input cell is processed the invariant is the merge
      property. */
  lemma InvDone(tiles: map<Pos, Tile>, processed: set<Pos>, owner: map<Pos, nat>, ps: seq<Placement>,
                tileset: int, layer: int)
    requires Inv(tiles, processed, owner, ps, tileset, layer)
    requires forall c :: c in tiles ==> c in processed
    ensures IsMergeOf(tiles, ps, tileset, layer)
  {
    OwnedCovered(tiles, owner, ps);
    OwnedDisjoint(owner, ps);
  }

  lemma OwnedCovered(tiles: map<Pos, Tile>, owner: map<Pos, nat>, ps: seq<Placement>)
    requires forall c :: c in tiles ==> c in owner
    requires forall c :: c in owner ==> owner[c] < |ps| && Covers(ps[owner[c]], c)
    ensures forall c :: c in tiles ==> exists i :: 0 <= i < |ps| && Covers(ps[i], c)
  {
    forall c | c in tiles ensures exists i :: 0 <= i < |ps| && Covers(ps[i], c) {
      assert Covers(ps[owner[c]], c);
    }
  }

  lemma OwnedDisjoint(owner: map<Pos, nat>, ps: seq<Placement>)
    requires forall i, c :: 0 <= i < |ps| && Covers(ps[i], c) ==> c in owner && owner[c] == i
    ensures forall i, j, c :: 0 <= i < j < |ps| && Covers(ps[i], c) ==> !Covers(ps[j], c)
  {
    forall i, j, c | 0 <= i < j < |ps| && Covers(ps[i], c) ensures !Covers(ps[j], c) {
      assert owner[c] == i;
    }
  }

  /** One mergeable, unprocessed cell `pos`: the backward scan finds its
      run's start, the forward scan its length; the run becomes one
      placement and all its cells are processed. */
  method MergeRun(tiles: map<Pos, Tile>, pos: Pos, h: bool, processed: set<Pos>, ghost owner: map<Pos, nat>,
                  ghost ps: seq<Placement>, tileset: int, layer: int)
    returns (pl: Placement, processed': set<Pos>, ghost owner': map<Pos, nat>)
    requires Inv(tiles, processed, owner, ps, tileset, layer)
    requires pos in tiles && pos !in processed && MergeAxis(tiles[pos].0) == Some(h)
    ensures Inv(tiles, processed', owner', ps + [pl], tileset, layer)
    ensures processed <= processed' && pos in processed'
  {
    var s, back := RunStart(tiles, pos, h);
    assert InRun(s, h, back + 1, s);
    assert Same(tiles, s, tiles[pos]);
    StartUnprocessed(tiles, processed, s, h, back);
    // The source also skips a run whose start is already processed;
    // `StartUnprocessed` shows that this never happens here.
    var len;
    len, processed', owner' := ExtendRun(tiles, s, h, processed, owner, |ps|);
    RunUnprocessed(tiles, processed, s, h, len);
    EmitRun(tiles, processed, owner, ps, tileset, layer, s, h, len, processed', owner');
    assert !InRun(s, h, back + 1, Shift(s, h, len));
    assert InRun(s, h, len, pos);
    pl := RunPlacement(tileset, layer, s, h, len, tiles[pos].1);
  }

  /** One cell of the visit: nothing when it is already processed, its
      whole run when it is mergeable, else a 1×1 placement. */
  method Visit(tiles: map<Pos, Tile>, pos: Pos, processed: set<Pos>, ghost owner: map<Pos, nat>,
               ps: seq<Placement>, tileset: int, layer: int)
    returns (ps': seq<Placement>, processed': set<Pos>, ghost owner': map<Pos, nat>)
    requires Inv(tiles, processed, owner, ps, tileset, layer)
    requires pos in tiles
    ensures Inv(tiles, processed', owner', ps', tileset, layer)
    ensures processed <= processed' && pos in processed'
  {
    ps', processed', owner' := ps, processed, owner;
    if pos in processed {
      return;
    }
    var v := tiles[pos];
    match MergeAxis(v.0)
    case Some(h) =>
      var pl;
      pl, processed', owner' := MergeRun(tiles, pos, h, processed, owner, ps, tileset, layer);
      ps' := ps + [pl];
    case None =>
      EmitSingle(tiles, processed, owner, ps, tileset, layer, pos);
      processed' := processed + {pos};
      owner' := owner[pos := |ps|];
      ps' := ps + [Placement(tileset, v.1, layer, pos.0, pos.1, 1, 1)];
  }

  /** The visit of every cell of `order`, in that order. */
  method VisitAll(tiles: map<Pos, Tile>, order: seq<Pos>, tileset: int, layer: int)
    returns (ps: seq<Placement>, processed: set<Pos>, ghost owner: map<Pos, nat>)
    requires forall c :: c in order ==> c in tiles
    ensures Inv(tiles, processed, owner, ps, tileset, layer)
    ensures forall c :: c in order ==> c in processed
  {
    ps, processed, owner := [], {}, map[];
    for k := 0 to |order|
      invariant Inv(tiles, processed, owner, ps, tileset, layer)
      invariant forall j :: 0 <= j < k ==> order[j] in processed
    {
      ps, processed, owner := Visit(tiles, order[k], processed, owner, ps, tileset, layer);
    }
  }

  /** `_merge_consecutive_tiles`: visits the cells in the dictionary's
      iteration order `order`; a mergeable cell not yet processed emits
      its whole run (found by scanning back to the run's start, then
      forward), any other cell a 1×1 placement. */
  method MergeConsecutiveTiles(tiles: map<Pos, Tile>, order: seq<Pos>, tileset: int, layer: int)
    returns (ps: seq<Placement>)
    requires forall c :: c in tiles <==> c in order
    ensures IsMergeOf(tiles, ps, tileset, layer)
  {
    var processed;
    ghost var owner;
    ps, processed, owner := VisitAll(tiles, order, tileset, layer);
    InvDone(tiles, processed, owner, ps, tileset, layer);
  }

  // ----- _remerge_placements -----

  /** `_get_tile_type_from_id`: the brush's reverse lookup, None without a
      brush. */
  function TypeOf(brush: Option<Brush.BrushState>, id: int): (r: Option<string>)
    ensures brush.None? ==> r.None?
    ensures r.Some? && Tiles.IsTerrain(r.value) ==> Brush.Lookup(brush.value.terrain, r.value) == Some(id)
    ensures r.Some? && Tiles.IsSlope(r.value) ==> Brush.Lookup(brush.value.slopes, r.value) == Some(id)
    ensures brush.Some? ==>
      (r.None? <==> (forall k :: k in Tiles.TerrainKeys ==> Brush.Lookup(brush.value.terrain, k) != Some(id))
                    && (forall k :: k in Tiles.SlopeKeys ==> Brush.Lookup(brush.value.slopes, k) != Some(id)))
  {
    match brush
    case None => None
    case Some(b) => Brush.TypeById(b, id)
  }

  /** What re-merging does with one placement: keep it as it is, expand it
      into its cells, or record its origin cell only. */
  datatype Treatment = Keep | Expand(t: string) | Single(t: string)

  /** A slope type (or a missing or empty type) keeps the placement; the
      five mergeable types expand; any other known type (a corner) keeps
      only its origin cell. */
  function TreatmentOf(t: Option<string>): (r: Treatment)
    ensures r.Expand? <==> t.Some? && MergeAxis(t.value).Some?
    ensures r.Keep? <==> t.None? || t.value == "" || PyStr.StartsWith(t.value, "slope_")
    ensures r.Expand? ==> r.t == t.value
    ensures r.Single? ==> r.t == t.value && r.t != ""
  {
    match t
    case None => Keep
    case Some(v) =>
      MergeNotSlope(v);
      if v != "" && PyStr.StartsWith(v, "slope_") then Keep
      else if MergeAxis(v).Some? then Expand(v)
      else if v != "" then Single(v)
      else Keep
  }

  /** None of the five mergeable types is a slope type. */
  lemma MergeNotSlope(t: string)
    ensures MergeAxis(t).Some? ==> t != "" && !PyStr.StartsWith(t, "slope_")
  {
    if MergeAxis(t).Some? {
      assert t[0] != 's';
    }
  }

  /** `TypeOf` for a fixed brush, as a function of the id. */
  function Lookup(brush: Option<Brush.BrushState>): int -> Option<string> {
    id => TypeOf(brush, id)
  }

  /** The treatment of a placement with object id `id`. */
  function TreatmentFor(typeOf: int -> Option<string>, id: int): Treatment {
    TreatmentOf(typeOf(id))
  }

  /** The placements re-merging passes through unchanged, in order. */
  function Kept(ps: seq<Placement>, typeOf: int -> Option<string>): (r: seq<Placement>)
    ensures forall p :: p in r ==> p in ps && TreatmentFor(typeOf, p.objectId).Keep?
    ensures |r| <= |ps|
    decreases |ps|
  {
    if ps == [] then []
    else
      var rest := Kept(ps[..|ps| - 1], typeOf);
      var p := ps[|ps| - 1];
      if TreatmentFor(typeOf, p.objectId).Keep? then rest + [p] else rest
  }

  /** The cells of `pl` that Python's `range(height)` × `range(width)`
      visits, all holding tile `v`. */
  function CellMap(pl: Placement, v: Tile): (m: map<Pos, Tile>)
    ensures forall c :: c in m <==> Covers(pl, c)
    ensures forall c :: c in m ==> m[c] == v
  {
    var cells := set x, y | pl.x <= x < pl.x + pl.width && pl.y <= y < pl.y + pl.height :: (x, y);
    map c | c in cells :: v
  }

  /** The cell dictionary re-merging builds: later placements overwrite
      earlier ones cell by cell. */
  function Expanded(ps: seq<Placement>, typeOf: int -> Option<string>): (m: map<Pos, Tile>)
    decreases |ps|
  {
    if ps == [] then map[]
    else
      var m := Expanded(ps[..|ps| - 1], typeOf);
      var p := ps[|ps| - 1];
      match TreatmentFor(typeOf, p.objectId)
      case Keep => m
      case Expand(t) => m + CellMap(p, (t, p.objectId))
      case Single(t) => m[(p.x, p.y) := (t, p.objectId)]
  }

  /** Every cell of the dictionary comes from a placement that is not kept:
      one of its cells, or its origin for a 1×1 type. It holds that
      placement's id. */
  lemma {:induction false} ExpandedFromPlacements(ps: seq<Placement>, typeOf: int -> Option<string>, c: Pos)
    requires c in Expanded(ps, typeOf)
    ensures exists p :: p in ps && !TreatmentFor(typeOf, p.objectId).Keep?
                        && (Covers(p, c) || c == Origin(p)) && Expanded(ps, typeOf)[c].1 == p.objectId
    decreases |ps|
  {
    var init, p := ps[..|ps| - 1], ps[|ps| - 1];
    assert ps == init + [p];
    var m := Expanded(init, typeOf);
    var tr := TreatmentFor(typeOf, p.objectId);
    if tr.Keep? || (tr.Expand? && !Covers(p, c)) || (tr.Single? && c != (p.x, p.y)) {
      assert c in m && Expanded(ps, typeOf)[c] == m[c];
      ExpandedFromPlacements(init, typeOf, c);
      var q :| q in init && !TreatmentFor(typeOf, q.objectId).Keep? && (Covers(q, c) || c == Origin(q)) && m[c].1 == q.objectId;
      assert q in ps;
    } else {
      assert (Covers(p, c) || c == Origin(p)) && Expanded(ps, typeOf)[c].1 == p.objectId;
    }
  }

  /** Sets `m[c] := v` in an insertion-ordered dictionary: a new key goes
      to the end of `order`, an existing one keeps its place. */
  method Put(m: map<Pos, Tile>, order: seq<Pos>, c: Pos, v: Tile) returns (m': map<Pos, Tile>, order': seq<Pos>)
    requires forall k :: k in m <==> k in order
    ensures m' == m[c := v]
    ensures forall k :: k in m' <==> k in order'
  {
    m' := m[c := v];
    order' := if c in m then order else order + [c];
  }

  /** Cell `k` of `pl` comes before cell `(dx, dy)` in the row-major
      order of the expansion loops. */
  predicate Done(pl: Placement, k: Pos, dy: int, dx: int) {
    Covers(pl, k) && (k.1 < pl.y + dy || (k.1 == pl.y + dy && k.0 < pl.x + dx))
  }

  /** `m` is `m0` overwritten with `v` on the cells of `pl` before `(dx, dy)`. */
  ghost predicate FilledUpTo(m0: map<Pos, Tile>, m: map<Pos, Tile>, pl: Placement, v: Tile, dy: int, dx: int) {
    && (forall k :: k in m <==> k in m0 || Done(pl, k, dy, dx))
    && (forall k :: k in m ==> m[k] == if Done(pl, k, dy, dx) then v else m0[k])
  }

  /** The inner loop: row `dy` of `pl`, left to right. */
  method ExpandRow(m0: map<Pos, Tile>, m: map<Pos, Tile>, order: seq<Pos>, pl: Placement, v: Tile, dy: nat)
    returns (m': map<Pos, Tile>, order': seq<Pos>)
    requires forall k :: k in m <==> k in order
    requires FilledUpTo(m0, m, pl, v, dy, 0) && dy < pl.height
    ensures forall k :: k in m' <==> k in order'
    ensures FilledUpTo(m0, m', pl, v, dy + 1, 0)
  {
    m', order' := m, order;
    for dx := 0 to Max(0, pl.width)
      invariant forall k :: k in m' <==> k in order'
      invariant FilledUpTo(m0, m', pl, v, dy, dx)
    {
      m', order' := Put(m', order', (pl.x + dx, pl.y + dy), v);
      forall k ensures Done(pl, k, dy, dx + 1) <==> Done(pl, k, dy, dx) || k == (pl.x + dx, pl.y + dy) {
      }
    }
    forall k ensures Done(pl, k, dy, Max(0, pl.width)) <==> Done(pl, k, dy + 1, 0) {
    }
  }

  /** The expansion loops over one mergeable placement: after them the
      dictionary is `m` overwritten with every cell of `pl`. */
  method ExpandInto(m: map<Pos, Tile>, order: seq<Pos>, pl: Placement, v: Tile)
    returns (m': map<Pos, Tile>, order': seq<Pos>)
    requires forall k :: k in m <==> k in order
    ensures m' == m + CellMap(pl, v)
    ensures forall k :: k in m' <==> k in order'
  {
    m', order' := m, order;
    for dy := 0 to Max(0, pl.height)
      invariant forall k :: k in m' <==> k in order'
      invariant FilledUpTo(m, m', pl, v, dy, 0)
    {
      m', order' := ExpandRow(m, m', order', pl, v, dy);
    }
    var cm := CellMap(pl, v);
    forall k ensures Done(pl, k, Max(0, pl.height), 0) <==> k in cm {
    }
    assert forall k :: k in m' <==> k in m + cm;
    assert m' == m + cm;
  }

  /** `_remerge_placements`: an empty list comes back as it is; otherwise
      the kept placements (slopes and unknown ids), in order, followed by
      the merge of the cell dictionary built from the others. */
  method RemergePlacements(placements: seq<Placement>, brush: Option<Brush.BrushState>, tileset: int, layer: int)
    returns (r: seq<Placement>)
    ensures placements == [] ==> r == []
    ensures placements != [] ==>
              var kept := Kept(placements, Lookup(brush));
              |kept| <= |r| && r[..|kept|] == kept
              && IsMergeOf(Expanded(placements, Lookup(brush)), r[|kept|..], tileset, layer)
  {
    if placements == [] {
      return placements;
    }
    var tiles: map<Pos, Tile> := map[];
    var order: seq<Pos> := [];
    var slopes: seq<Placement> := [];
    for i := 0 to |placements|
      invariant tiles == Expanded(placements[..i], Lookup(brush))
      invariant slopes == Kept(placements[..i], Lookup(brush))
      invariant forall k :: k in tiles <==> k in order
    {
      var pl := placements[i];
      assert placements[..i + 1][..i] == placements[..i];
      var tileType := TypeOf(brush, pl.objectId);
      assert TreatmentOf(tileType) == TreatmentFor(Lookup(brush), pl.objectId);
      match TreatmentOf(tileType)
      case Keep =>
        slopes := slopes + [pl];
      case Expand(t) =>
        tiles, order := ExpandInto(tiles, order, pl, (t, pl.objectId));
      case Single(t) =>
        tiles, order := Put(tiles, order, (pl.x, pl.y), (t, pl.objectId));
    }
    assert placements[..|placements|] == placements;
    var merged := MergeConsecutiveTiles(tiles, order, tileset, layer);
    r := slopes + merged;
    assert r[..|slopes|] == slopes && r[|slopes|..] == merged;
  }
}
