/** The deferred-mode outline of the painting engine (`_update_outline` and
    its two lookup tables in quickpaint/core/engine.py): the slope origins
    first, then every stroke position, each given an edge type that follows
    the stroke and a corner type where the stroke turns. */
module Outline {
  import opened Common
  import opened Tiles
  import opened Grid
  import opened SlopeShapes

  /** The four straight edges an outline runs along. */
  datatype Edge = TopEdge | BottomEdge | LeftEdge | RightEdge

  function EdgeTerrain(e: Edge): Terrain {
    match e
    case TopEdge => Top
    case BottomEdge => Bottom
    case LeftEdge => Left
    case RightEdge => Right
  }

  predicate HorizontalEdge(e: Edge) {
    e == TopEdge || e == BottomEdge
  }

  predicate HorizontalHeading(h: Heading) {
    h == LeftToRight || h == RightToLeft
  }

  /** `_get_corner_type`: the corner placed where the stroke turns from
      `from` to `to` while drawing `edge`. */
  function CornerType(edge: Edge, from: Option<Heading>, to: Heading): Option<Terrain> {
    match (edge, from, to)
    case (TopEdge, Some(LeftToRight), TopToBottom) => Some(TopRight)
    case (TopEdge, Some(LeftToRight), BottomToTop) => Some(InnerTopRight)
    case (TopEdge, Some(RightToLeft), TopToBottom) => Some(TopLeft)
    case (TopEdge, Some(RightToLeft), BottomToTop) => Some(InnerTopLeft)
    case (BottomEdge, Some(LeftToRight), TopToBottom) => Some(InnerBottomRight)
    case (BottomEdge, Some(LeftToRight), BottomToTop) => Some(BottomRight)
    case (BottomEdge, Some(RightToLeft), TopToBottom) => Some(InnerBottomLeft)
    case (BottomEdge, Some(RightToLeft), BottomToTop) => Some(BottomLeft)
    case (LeftEdge, Some(BottomToTop), LeftToRight) => Some(TopLeft)
    case (LeftEdge, Some(BottomToTop), RightToLeft) => Some(InnerBottomRight)
    case (LeftEdge, Some(TopToBottom), LeftToRight) => Some(InnerTopRight)
    case (LeftEdge, Some(TopToBottom), RightToLeft) => Some(BottomLeft)
    case (RightEdge, Some(BottomToTop), LeftToRight) => Some(InnerBottomLeft)
    case (RightEdge, Some(BottomToTop), RightToLeft) => Some(TopRight)
    case (RightEdge, Some(TopToBottom), LeftToRight) => Some(InnerTopLeft)
    case (RightEdge, Some(TopToBottom), RightToLeft) => Some(BottomRight)
    case _ => None
  }

  /** `_get_edge_after_turn`: the edge drawn after the turn; the current one
      for every key the table does not list. */
  function EdgeAfterTurn(edge: Edge, from: Option<Heading>, to: Heading): Edge {
    match (edge, from, to)
    case (TopEdge, Some(LeftToRight), TopToBottom) => RightEdge
    case (TopEdge, Some(LeftToRight), BottomToTop) => LeftEdge
    case (TopEdge, Some(RightToLeft), TopToBottom) => LeftEdge
    case (TopEdge, Some(RightToLeft), BottomToTop) => RightEdge
    case (BottomEdge, Some(LeftToRight), TopToBottom) => LeftEdge
    case (BottomEdge, Some(LeftToRight), BottomToTop) => RightEdge
    case (BottomEdge, Some(RightToLeft), TopToBottom) => RightEdge
    case (BottomEdge, Some(RightToLeft), BottomToTop) => LeftEdge
    case (LeftEdge, Some(BottomToTop), LeftToRight) => TopEdge
    case (LeftEdge, Some(BottomToTop), RightToLeft) => BottomEdge
    case (LeftEdge, Some(TopToBottom), LeftToRight) => TopEdge
    case (LeftEdge, Some(TopToBottom), RightToLeft) => BottomEdge
    case (RightEdge, Some(BottomToTop), LeftToRight) => BottomEdge
    case (RightEdge, Some(BottomToTop), RightToLeft) => TopEdge
    case (RightEdge, Some(TopToBottom), LeftToRight) => TopEdge
    case (RightEdge, Some(TopToBottom), RightToLeft) => BottomEdge
    case _ => edge
  }

  /** The 16 keys both tables list: a horizontal edge turning from a
      horizontal heading to a vertical one, or a vertical edge turning from a
      vertical heading to a horizontal one. */
  predicate Listed(edge: Edge, from: Option<Heading>, to: Heading) {
    from.Some?
    && HorizontalEdge(edge) == HorizontalHeading(from.value)
    && HorizontalHeading(from.value) != HorizontalHeading(to)
  }

  predicate IsCorner(t: Terrain) {
    t in {TopLeft, TopRight, BottomLeft, BottomRight,
          InnerTopLeft, InnerTopRight, InnerBottomLeft, InnerBottomRight}
  }

  /** A corner comes out for exactly the 16 listed keys, and it is always one
      of the eight corner positions. */
  lemma CornerTableKeys(edge: Edge, from: Option<Heading>, to: Heading)
    ensures CornerType(edge, from, to).Some? <==> Listed(edge, from, to)
    ensures CornerType(edge, from, to).Some? ==> IsCorner(CornerType(edge, from, to).value)
  {
  }

  /** A listed turn swaps a horizontal edge for a vertical one and back;
      every other key keeps the current edge. */
  lemma EdgeTableTurns(edge: Edge, from: Option<Heading>, to: Heading)
    ensures Listed(edge, from, to) ==> HorizontalEdge(EdgeAfterTurn(edge, from, to)) != HorizontalEdge(edge)
    ensures !Listed(edge, from, to) ==> EdgeAfterTurn(edge, from, to) == edge
  {
  }

  // ----- orientation: terrain on the right-hand side of travel -----

  /** The edge with the terrain on the right-hand side of travel, which is
      also the edge a stroke starts with (`initial_dir` → `current_edge`). */
  function RightHandEdge(h: Heading): Edge {
    match h
    case LeftToRight => TopEdge
    case TopToBottom => RightEdge
    case RightToLeft => BottomEdge
    case BottomToTop => LeftEdge
  }

  function Opposite(h: Heading): Heading {
    match h
    case LeftToRight => RightToLeft
    case RightToLeft => LeftToRight
    case TopToBottom => BottomToTop
    case BottomToTop => TopToBottom
  }

  /** Turning a quarter while the terrain is on the right-hand side keeps it
      there, and the corner is the outer one for a right turn and the inner
      one for a left turn. */
  lemma TurnKeepsRightHand(h: Heading, to: Heading)
    requires HorizontalHeading(h) != HorizontalHeading(to)
    ensures Listed(RightHandEdge(h), Some(h), to)
    ensures EdgeAfterTurn(RightHandEdge(h), Some(h), to) == RightHandEdge(to)
  {
  }

  /** The position seen upside down and mirrored. */
  function HalfTurnTerrain(t: Terrain): Terrain {
    match t
    case Center => Center
    case Top => Bottom
    case Bottom => Top
    case Left => Right
    case Right => Left
    case TopLeft => BottomRight
    case TopRight => BottomLeft
    case BottomLeft => TopRight
    case BottomRight => TopLeft
    case InnerTopLeft => InnerBottomRight
    case InnerTopRight => InnerBottomLeft
    case InnerBottomLeft => InnerTopRight
    case InnerBottomRight => InnerTopLeft
  }

  function HalfTurnEdge(e: Edge): Edge {
    match e
    case TopEdge => BottomEdge
    case BottomEdge => TopEdge
    case LeftEdge => RightEdge
    case RightEdge => LeftEdge
  }

  function HalfTurnHeading(h: Option<Heading>): Option<Heading> {
    match h
    case None => None
    case Some(d) => Some(Opposite(d))
  }

  /** The tables agree with their own half-turned image, except on the keys
      of a left edge drawn downwards and a right edge drawn upwards, the
      edges a stroke only has when its terrain lies on the left-hand side. */
  lemma TablesHalfTurnSymmetric(edge: Edge, from: Option<Heading>, to: Heading)
    requires !(edge == LeftEdge && from == Some(TopToBottom)) && !(edge == RightEdge && from == Some(BottomToTop))
    ensures CornerType(HalfTurnEdge(edge), HalfTurnHeading(from), Opposite(to))
         == (match CornerType(edge, from, to) case None => None case Some(t) => Some(HalfTurnTerrain(t)))
    ensures EdgeAfterTurn(HalfTurnEdge(edge), HalfTurnHeading(from), Opposite(to)) == HalfTurnEdge(EdgeAfterTurn(edge, from, to))
  {
  }

  /** On the excluded keys the symmetry fails: the two rows of a left edge
      drawn downwards hold each other's half-turned values. */
  lemma LeftDownwardRowsSwapped()
    ensures CornerType(LeftEdge, Some(TopToBottom), LeftToRight)
         == Some(HalfTurnTerrain(CornerType(RightEdge, Some(BottomToTop), LeftToRight).value))
    ensures CornerType(LeftEdge, Some(TopToBottom), RightToLeft)
         == Some(HalfTurnTerrain(CornerType(RightEdge, Some(BottomToTop), RightToLeft).value))
    ensures EdgeAfterTurn(LeftEdge, Some(TopToBottom), LeftToRight)
         == HalfTurnEdge(EdgeAfterTurn(RightEdge, Some(BottomToTop), LeftToRight))
  {
  }

  // ----- the outline -----

  /** An outline position's type: a terrain position or a slope. */
  datatype OutlineType = Tile(t: Terrain) | Slope(shape: SlopeShape)

  function TypeName(o: OutlineType): string {
    match o
    case Tile(t) => TerrainName(t)
    case Slope(s) => Name(s)
  }

  /** A committed or previewed slope: its type and its top-left cell. */
  datatype SlopeSegment = SlopeSegment(shape: SlopeShape, origin: Pos)

  /** The edge a stroke starts with: from `initial_direction`, 'top' when
      there is none. */
  function InitialEdge(init: Option<Heading>): (e: Edge)
    ensures init.Some? ==> e == RightHandEdge(init.value)
  {
    match init
    case Some(h) => RightHandEdge(h)
    case None => TopEdge
  }

  /** The heading of the move from `prev` to `pos`: the horizontal sign
      first, then the vertical one, and the current heading for no move. */
  function MoveHeading(prev: Pos, pos: Pos, current: Option<Heading>): (h: Option<Heading>)
    ensures pos == prev ==> h == current
    ensures pos != prev ==> h.Some?
  {
    var dx, dy := pos.0 - prev.0, pos.1 - prev.1;
    if dx > 0 then Some(LeftToRight)
    else if dx < 0 then Some(RightToLeft)
    else if dy > 0 then Some(TopToBottom)
    else if dy < 0 then Some(BottomToTop)
    else current
  }

  /** The loop state of `_update_outline`. */
  datatype OutlineState = OutlineState(outline: seq<Pos>, types: map<Pos, OutlineType>, edge: Edge, dir: Option<Heading>)

  /** The state before the path loop: the slope origins, in order, each
      typed with its slope (a later slope at the same origin wins). */
  function Origins(segs: seq<SlopeSegment>): (r: (seq<Pos>, map<Pos, OutlineType>))
    ensures |r.0| == |segs|
  {
    if segs == [] then ([], map[])
    else
      var (o, t) := Origins(segs[..|segs| - 1]);
      var s := segs[|segs| - 1];
      (o + [s.origin], t[s.origin := Slope(s.shape)])
  }

  function Start(segs: seq<SlopeSegment>, init: Option<Heading>): OutlineState {
    var (o, t) := Origins(segs);
    OutlineState(o, t, InitialEdge(init), init)
  }

  /** The turn handling before position `pos`: on a change of heading the
      corner (if the table has one) goes to `prev` and the edge follows the
      edge table. */
  function Turn(st: OutlineState, prev: Pos, pos: Pos): OutlineState {
    var h := MoveHeading(prev, pos, st.dir);
    if h == st.dir then st
    else
      var corner := CornerType(st.edge, st.dir, h.value);
      st.(types := if corner.Some? then st.types[prev := Tile(corner.value)] else st.types,
          edge := EdgeAfterTurn(st.edge, st.dir, h.value),
          dir := h)
  }

  /** One iteration for `path[i]`: the turn, then the current edge type if
      the position has no type yet, and the position if it is not yet in the
      outline. */
  function Step(st: OutlineState, path: seq<Pos>, i: nat): OutlineState
    requires i < |path|
  {
    var pos := path[i];
    var s := if i > 0 then Turn(st, path[i - 1], pos) else st;
    s.(types := if pos in s.types then s.types else s.types[pos := Tile(EdgeTerrain(s.edge))],
       outline := if pos in s.outline then s.outline else s.outline + [pos])
  }

  /** The state after the first `n` path positions. */
  function Walk(st: OutlineState, path: seq<Pos>, n: nat): OutlineState
    requires n <= |path|
  {
    if n == 0 then st else Step(Walk(st, path, n - 1), path, n - 1)
  }

  /** The outline and its types for a stroke, its slopes and its initial
      direction. */
  function OutlineOf(path: seq<Pos>, segs: seq<SlopeSegment>, init: Option<Heading>): OutlineState {
    Walk(Start(segs, init), path, |path|)
  }

  /** `_update_outline`'s two loops. */
  method BuildOutline(path: seq<Pos>, segs: seq<SlopeSegment>, init: Option<Heading>)
    returns (outline: seq<Pos>, types: map<Pos, OutlineType>)
    ensures outline == OutlineOf(path, segs, init).outline
    ensures types == OutlineOf(path, segs, init).types
  {
    outline, types := [], map[];
    var k := 0;
    while k < |segs|
      invariant 0 <= k <= |segs|
      invariant (outline, types) == Origins(segs[..k])
    {
      assert segs[..k + 1][..k] == segs[..k];
      outline := outline + [segs[k].origin];
      types := types[segs[k].origin := Slope(segs[k].shape)];
      k := k + 1;
    }
    assert segs[..|segs|] == segs;
    var edge := InitialEdge(init);
    var dir := init;
    var i := 0;
    while i < |path|
      invariant 0 <= i <= |path|
      invariant OutlineState(outline, types, edge, dir) == Walk(Start(segs, init), path, i)
    {
      var pos := path[i];
      if i > 0 {
        var prev := path[i - 1];
        var h := MoveHeading(prev, pos, dir);
        if h != dir {
          var corner := CornerType(edge, dir, h.value);
          if corner.Some? {
            types := types[prev := Tile(corner.value)];
          }
          edge := EdgeAfterTurn(edge, dir, h.value);
          dir := h;
        }
      }
      if pos !in types {
        types := types[pos := Tile(EdgeTerrain(edge))];
      }
      if pos !in outline {
        outline := outline + [pos];
      }
      i := i + 1;
    }
  }

  // ----- what the outline covers -----

  lemma {:induction false} OriginsFacts(segs: seq<SlopeSegment>)
    ensures forall p :: p in Origins(segs).1 <==> p in Origins(segs).0
    ensures forall k :: 0 <= k < |segs| ==> Origins(segs).0[k] == segs[k].origin
  {
    if segs != [] {
      OriginsFacts(segs[..|segs| - 1]);
    }
  }

  /** The outline only ever grows at its end, and only by a position it
      does not hold yet. */
  lemma StepGrows(st0: OutlineState, path: seq<Pos>, i: nat)
    requires i < |path|
    ensures var st := Step(st0, path, i);
      st.outline == (if path[i] in st0.outline then st0.outline else st0.outline + [path[i]])
  {
  }

  /** The outline alone after `n` positions, starting from `o`: each
      position is appended the first time it is reached. */
  function Grown(o: seq<Pos>, path: seq<Pos>, n: nat): seq<Pos>
    requires n <= |path|
  {
    if n == 0 then o
    else
      var g := Grown(o, path, n - 1);
      if path[n - 1] in g then g else g + [path[n - 1]]
  }

  /** The turn handling never touches the outline, so the walk's outline is
      the grown one. */
  lemma {:induction false} WalkOutline(st: OutlineState, path: seq<Pos>, n: nat)
    requires n <= |path|
    ensures Walk(st, path, n).outline == Grown(st.outline, path, n)
  {
    if n > 0 {
      WalkOutline(st, path, n - 1);
      StepGrows(Walk(st, path, n - 1), path, n - 1);
    }
  }

  lemma {:induction false} GrownMembers(o: seq<Pos>, path: seq<Pos>, n: nat)
    requires n <= |path|
    ensures forall p :: p in Grown(o, path, n) <==> p in o || p in path[..n]
  {
    if n > 0 {
      GrownMembers(o, path, n - 1);
      assert path[..n] == path[..n - 1] + [path[n - 1]];
    }
  }

  lemma {:induction false} GrownPrefix(o: seq<Pos>, path: seq<Pos>, n: nat)
    requires n <= |path|
    ensures |Grown(o, path, n)| >= |o| && Grown(o, path, n)[..|o|] == o
  {
    if n > 0 {
      GrownPrefix(o, path, n - 1);
      var g := Grown(o, path, n - 1);
      assert (g + [path[n - 1]])[..|o|] == g[..|o|];
    }
  }

  lemma {:induction false} GrownTail(o: seq<Pos>, path: seq<Pos>, n: nat)
    requires n <= |path|
    ensures var g := Grown(o, path, n);
      |g| >= |o| && Distinct(g[|o|..]) && (forall p :: p in g[|o|..] ==> p !in o)
  {
    GrownPrefix(o, path, n);
    if n > 0 {
      GrownTail(o, path, n - 1);
      GrownPrefix(o, path, n - 1);
      TailGrows(Grown(o, path, n - 1), o, path[n - 1]);
    }
  }

  /** After `n` positions the outline holds the slope origins and the
      visited path positions, and nothing else. */
  lemma WalkMembers(segs: seq<SlopeSegment>, init: Option<Heading>, path: seq<Pos>, n: nat)
    requires n <= |path|
    ensures var st := Walk(Start(segs, init), path, n);
      forall p :: p in st.outline <==> p in Origins(segs).0 || p in path[..n]
  {
    WalkOutline(Start(segs, init), path, n);
    GrownMembers(Origins(segs).0, path, n);
  }

  /** The outline starts with the slope origins. */
  lemma WalkPrefix(segs: seq<SlopeSegment>, init: Option<Heading>, path: seq<Pos>, n: nat)
    requires n <= |path|
    ensures var st := Walk(Start(segs, init), path, n);
      |st.outline| >= |segs| && st.outline[..|segs|] == Origins(segs).0
  {
    WalkOutline(Start(segs, init), path, n);
    GrownPrefix(Origins(segs).0, path, n);
  }

  /** What follows the origins is free of repeats and of origins. */
  lemma WalkTail(segs: seq<SlopeSegment>, init: Option<Heading>, path: seq<Pos>, n: nat)
    requires n <= |path|
    ensures var st := Walk(Start(segs, init), path, n);
      |st.outline| >= |segs|
      && Distinct(st.outline[|segs|..])
      && (forall p :: p in st.outline[|segs|..] ==> p !in Origins(segs).0)
  {
    WalkOutline(Start(segs, init), path, n);
    GrownTail(Origins(segs).0, path, n);
  }

  /** Appending a position the outline does not hold keeps its tail after
      the origins free of repeats and of origins. */
  lemma TailGrows(o: seq<Pos>, origins: seq<Pos>, pos: Pos)
    requires |o| >= |origins| && o[..|origins|] == origins
    requires Distinct(o[|origins|..]) && (forall p :: p in o[|origins|..] ==> p !in origins)
    ensures var o' := if pos in o then o else o + [pos];
      Distinct(o'[|origins|..]) && (forall p :: p in o'[|origins|..] ==> p !in origins)
  {
    if pos !in o {
      var o' := o + [pos];
      assert o'[|origins|..] == o[|origins|..] + [pos];
      assert o == origins + o[|origins|..];
      assert pos !in origins;
      assert pos !in o[|origins|..];
    }
  }

  /** The typed positions are exactly the outline's positions. */
  lemma {:induction false} WalkTyped(segs: seq<SlopeSegment>, init: Option<Heading>, path: seq<Pos>, n: nat)
    requires n <= |path|
    ensures var st := Walk(Start(segs, init), path, n);
      forall p :: p in st.types <==> p in st.outline
  {
    OriginsFacts(segs);
    if n > 0 {
      WalkTyped(segs, init, path, n - 1);
      var st0 := Walk(Start(segs, init), path, n - 1);
      StepGrows(st0, path, n - 1);
      if n > 1 {
        WalkMembers(segs, init, path, n - 1);
        assert path[n - 2] in path[..n - 1];
      }
    }
  }

  /** Every stroke position is in the outline with a type, and so is every
      slope origin. */
  lemma OutlineCovers(path: seq<Pos>, segs: seq<SlopeSegment>, init: Option<Heading>)
    ensures var st := OutlineOf(path, segs, init);
      (forall p :: p in st.outline <==> p in path || exists k :: 0 <= k < |segs| && segs[k].origin == p)
      && (forall p :: p in st.types <==> p in st.outline)
      && |st.outline| >= |segs| && st.outline[..|segs|] == Origins(segs).0
      && Distinct(st.outline[|segs|..])
  {
    WalkMembers(segs, init, path, |path|);
    WalkPrefix(segs, init, path, |path|);
    WalkTail(segs, init, path, |path|);
    WalkTyped(segs, init, path, |path|);
    OriginsFacts(segs);
    assert path[..|path|] == path;
    var o := Origins(segs).0;
    forall p ensures p in o <==> exists k :: 0 <= k < |segs| && segs[k].origin == p {
      if p in o {
        var k :| 0 <= k < |o| && o[k] == p;
        assert segs[k].origin == p;
      }
      if exists k :: 0 <= k < |segs| && segs[k].origin == p {
        var k :| 0 <= k < |segs| && segs[k].origin == p;
        assert o[k] == p;
      }
    }
  }

  // ----- strokes the path builder produces -----

  /** Consecutive positions are cardinal neighbours, and no move returns to
      the position two back (the path builder never steps back onto the
      stroke). */
  predicate CardinalNoReturn(path: seq<Pos>) {
    (forall i :: 0 < i < |path| ==> Abs(path[i].0 - path[i - 1].0) + Abs(path[i].1 - path[i - 1].1) == 1)
    && (forall i :: 1 < i < |path| ==> path[i] != path[i - 2])
  }

  /** The heading of a cardinal move. */
  function StepHeading(prev: Pos, pos: Pos): Heading
    requires Abs(pos.0 - prev.0) + Abs(pos.1 - prev.1) == 1
  {
    MoveHeading(prev, pos, None).value
  }

  /** Two cardinal moves that do not come back make no half turn. */
  lemma NoReversal(a: Pos, b: Pos, c: Pos)
    requires Abs(b.0 - a.0) + Abs(b.1 - a.1) == 1 && Abs(c.0 - b.0) + Abs(c.1 - b.1) == 1
    requires c != a
    ensures StepHeading(b, c) != Opposite(StepHeading(a, b))
  {
  }

  /** The walk state keeps the terrain on the right-hand side of travel and
      its heading is that of the last move. */
  predicate RightHanded(st: OutlineState) {
    st.dir.Some? && st.edge == RightHandEdge(st.dir.value)
  }

  /** A cardinal move that is not a half turn keeps the walk right-handed
      and makes its heading the move's. */
  lemma TurnRightHanded(st: OutlineState, prev: Pos, pos: Pos)
    requires RightHanded(st) && Abs(pos.0 - prev.0) + Abs(pos.1 - prev.1) == 1
    requires StepHeading(prev, pos) != Opposite(st.dir.value)
    ensures RightHanded(Turn(st, prev, pos)) && Turn(st, prev, pos).dir == Some(StepHeading(prev, pos))
  {
    var h := StepHeading(prev, pos);
    assert MoveHeading(prev, pos, st.dir) == Some(h);
    if h != st.dir.value {
      TurnKeepsRightHand(st.dir.value, h);
    }
  }

  lemma {:induction false} WalkRightHanded(segs: seq<SlopeSegment>, h0: Heading, path: seq<Pos>, n: nat)
    requires 1 <= n <= |path| && CardinalNoReturn(path)
    requires |path| > 1 ==> StepHeading(path[0], path[1]) != Opposite(h0)
    ensures var st := Walk(Start(segs, Some(h0)), path, n);
      RightHanded(st) && (n > 1 ==> st.dir == Some(StepHeading(path[n - 2], path[n - 1])))
  {
    if n > 1 {
      WalkRightHanded(segs, h0, path, n - 1);
      var st0 := Walk(Start(segs, Some(h0)), path, n - 1);
      var prev, pos := path[n - 2], path[n - 1];
      if n > 2 {
        NoReversal(path[n - 3], prev, pos);
      }
      TurnRightHanded(st0, prev, pos);
    }
  }

  /** For a stroke the path builder can produce, every change of heading is
      a quarter turn with a corner in the tables, and the outline keeps the
      terrain on the right-hand side of travel: the rows for a left edge
      drawn downwards and a right edge drawn upwards are never consulted. */
  lemma StrokeTurnsHaveCorners(segs: seq<SlopeSegment>, h0: Heading, path: seq<Pos>, n: nat)
    requires 1 <= n < |path| && CardinalNoReturn(path)
    requires StepHeading(path[0], path[1]) != Opposite(h0)
    ensures var st := Walk(Start(segs, Some(h0)), path, n);
      var h := StepHeading(path[n - 1], path[n]);
      RightHanded(st)
      && (Some(h) != st.dir ==>
            (CornerType(st.edge, st.dir, h).Some?
             && !(st.edge == LeftEdge && st.dir == Some(TopToBottom))
             && !(st.edge == RightEdge && st.dir == Some(BottomToTop))))
  {
    WalkRightHanded(segs, h0, path, n);
    var st := Walk(Start(segs, Some(h0)), path, n);
    var h := StepHeading(path[n - 1], path[n]);
    if n > 1 {
      NoReversal(path[n - 2], path[n - 1], path[n]);
    }
    RightHandedCorner(st, h);
  }

  /** From a right-handed state, a quarter turn has a corner in the tables
      and never consults the two rows a right-handed walk cannot reach. */
  lemma RightHandedCorner(st: OutlineState, h: Heading)
    requires RightHanded(st) && h != Opposite(st.dir.value)
    ensures Some(h) != st.dir ==>
      (CornerType(st.edge, st.dir, h).Some?
       && !(st.edge == LeftEdge && st.dir == Some(TopToBottom))
       && !(st.edge == RightEdge && st.dir == Some(BottomToTop)))
  {
    if Some(h) != st.dir {
      TurnKeepsRightHand(st.dir.value, h);
      CornerTableKeys(st.edge, st.dir, h);
    }
  }

  /** A stroke that only moves in its initial direction is drawn with the
      initial edge everywhere except on slope origins. */
  lemma {:induction false} StraightStroke(segs: seq<SlopeSegment>, h0: Heading, path: seq<Pos>, n: nat)
    requires n <= |path|
    requires forall i :: 0 < i < |path| ==> MoveHeading(path[i - 1], path[i], Some(h0)) == Some(h0)
    ensures var st := Walk(Start(segs, Some(h0)), path, n);
      st.dir == Some(h0) && st.edge == RightHandEdge(h0)
      && forall p :: p in path[..n] ==>
           p in st.types && (p !in Origins(segs).1 ==> st.types[p] == Tile(EdgeTerrain(RightHandEdge(h0))))
  {
    if n > 0 {
      StraightStroke(segs, h0, path, n - 1);
      WalkTyped(segs, Some(h0), path, n - 1);
      WalkMembers(segs, Some(h0), path, n - 1);
      OriginsFacts(segs);
      var st0 := Walk(Start(segs, Some(h0)), path, n - 1);
      var pos := path[n - 1];
      if n > 1 {
        assert MoveHeading(path[n - 2], pos, Some(h0)) == Some(h0);
        assert Turn(st0, path[n - 2], pos) == st0;
      }
      var st := Walk(Start(segs, Some(h0)), path, n);
      assert st.edge == st0.edge && st.dir == st0.dir;
      assert st.types == if pos in st0.types then st0.types else st0.types[pos := Tile(EdgeTerrain(st0.edge))];
      forall p | p in path[..n]
        ensures p in st.types && (p !in Origins(segs).1 ==> st.types[p] == Tile(EdgeTerrain(RightHandEdge(h0))))
      {
        if p != pos {
          assert p in path[..n - 1] by {
            assert path[..n] == path[..n - 1] + [pos];
          }
        }
      }
    }
  }
}
