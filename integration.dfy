/** The editor-side helpers of the Quick Paint tool
    (quickpaint/ui/reggie_integration.py): the line drawn between two mouse
    samples, the auto-fill of a polygon closed by a finished stroke, the
    merging of a fill into rectangles, the placement of deco objects over a
    fill without overlap, and the D-key cycling of deco containers. */
module Integration {
  import opened Common
  import Fill

  // ----- `_interpolate_positions` -----

  /** One step moves each coordinate by 0 or by its direction's unit, and
      moves at least one of them. */
  predicate StepToward(a: Pos, b: Pos, ux: int, uy: int) {
    (b.0 == a.0 || b.0 == a.0 + ux) && (b.1 == a.1 || b.1 == a.1 + uy) && a != b
  }

  /** Every consecutive pair of `ps` is one step toward the end. */
  predicate Walk(ps: seq<Pos>, ux: int, uy: int) {
    forall k :: 0 < k < |ps| ==> StepToward(ps[k - 1], ps[k], ux, uy)
  }

  lemma MulLe(a: int, b: int, c: int)
    requires a >= 0 && b <= c
    ensures a * b <= a * c
  {
    assert a * c - a * b == a * (c - b);
  }

  /** The error term of the walk after `i` steps along x and `j` along y,
      for a line spanning `dx` by `dy` cells, and the bounds it keeps. */
  ghost predicate LineState(dx: int, dy: int, i: int, j: int, err: int) {
    0 <= i <= dx && 0 <= j <= dy
    && err == dx * (j + 1) - dy * (i + 1)
    && (dx > dy ==> 2 * err > -dy)
    && (dy > dx ==> 2 * err < dx)
    && (dx == dy ==> i == j && err == 0)
  }

  /** Once x has reached the end, a further x step is impossible while y
      has not. */
  lemma NoOvershootX(dx: int, dy: int, j: int)
    requires dx >= 0 && 0 <= j < dy
    ensures 2 * (dx * (j + 1) - dy * (dx + 1)) <= -dy
  {
    MulLe(dx, j + 1, dy);
    assert dy * (dx + 1) == dx * dy + dy;
  }

  /** Once y has reached the end, a further y step is impossible while x
      has not. */
  lemma NoOvershootY(dx: int, dy: int, i: int)
    requires dy >= 0 && 0 <= i < dx
    ensures 2 * (dx * (dy + 1) - dy * (i + 1)) >= dx
  {
    MulLe(dy, i + 1, dx);
    assert dx * (dy + 1) == dx * dy + dx;
  }

  /** One round of the walk keeps `LineState`, always advances along the
      longer axis (both when they are equal), and never passes the end. */
  lemma LineStep(dx: int, dy: int, i: int, j: int, err: int)
    requires LineState(dx, dy, i, j, err)
    requires i < dx || j < dy
    ensures var xs, ys := 2 * err > -dy, 2 * err < dx;
      LineState(dx, dy, if xs then i + 1 else i, if ys then j + 1 else j,
                err - (if xs then dy else 0) + (if ys then dx else 0))
      && (dx >= dy ==> xs) && (dy >= dx ==> ys)
  {
    if i == dx {
      NoOvershootX(dx, dy, j);
    }
    if j == dy {
      NoOvershootY(dx, dy, i);
    }
    assert dx * (j + 2) == dx * (j + 1) + dx;
    assert dy * (i + 2) == dy * (i + 1) + dy;
  }

  /** The body of the loop of `_interpolate_positions` after its exit test:
      `e2 = 2*err` decides an x step and a y step. The ghost counters `i`
      and `j` count the steps taken along each axis. */
  method Advance(dx: int, dy: int, sx: int, sy: int, x: int, y: int, err: int, ghost i: int, ghost j: int)
    returns (x': int, y': int, err': int, ghost i': int, ghost j': int)
    requires LineState(dx, dy, i, j, err) && (i < dx || j < dy)
    ensures LineState(dx, dy, i', j', err')
    ensures i' == i || (i' == i + 1 && x' == x + sx)
    ensures j' == j || (j' == j + 1 && y' == y + sy)
    ensures i' == i ==> x' == x
    ensures j' == j ==> y' == y
    ensures (i', j') != (i, j)
    ensures dx >= dy ==> i' == i + 1
    ensures dy >= dx ==> j' == j + 1
  {
    LineStep(dx, dy, i, j, err);
    x', y', err', i', j' := x, y, err, i, j;
    var e2 := 2 * err;
    if e2 > -dy {
      err' := err' - dy;
      x' := x + sx;
      i' := i + 1;
    }
    if e2 < dx {
      err' := err' + dx;
      y' := y + sy;
      j' := j + 1;
    }
  }

  /** The state of the walk of `_interpolate_positions` from `start` to
      `end` before the cell `(x, y)` is appended: `i` steps taken along x and
      `j` along y, the cells so far a walk from `start` ending one step
      short of `(x, y)`. */
  ghost predicate Drawing(start: Pos, end: Pos, ps: seq<Pos>, x: int, y: int, err: int, i: int, j: int) {
    var dx, dy := Abs(end.0 - start.0), Abs(end.1 - start.1);
    var ux, uy := Sign(end.0 - start.0), Sign(end.1 - start.1);
    LineState(dx, dy, i, j, err)
    && x == (if start.0 < end.0 then start.0 + i else start.0 - i)
    && y == (if start.1 < end.1 then start.1 + j else start.1 - j)
    && |ps| == (if dx >= dy then i else j)
    && (ps == [] ==> i == 0 && j == 0)
    && (ps != [] ==> ps[0] == start && StepToward(ps[|ps| - 1], (x, y), ux, uy))
    && Walk(ps, ux, uy)
  }

  /** Away from the end there is a step left to take. */
  lemma DrawingGoesOn(start: Pos, end: Pos, ps: seq<Pos>, x: int, y: int, err: int, i: int, j: int)
    requires Drawing(start, end, ps, x, y, err, i, j) && (x, y) != end
    ensures i < Abs(end.0 - start.0) || j < Abs(end.1 - start.1)
  {
  }

  /** Appending the current cell and taking one round of steps keeps the
      drawing state. */
  lemma DrawingStep(start: Pos, end: Pos, ps: seq<Pos>, x: int, y: int, err: int, i: int, j: int,
                    x': int, y': int, err': int, i': int, j': int)
    requires Drawing(start, end, ps, x, y, err, i, j)
    requires var dx, dy := Abs(end.0 - start.0), Abs(end.1 - start.1);
      LineState(dx, dy, i', j', err')
      && (i' == i || (i' == i + 1 && x' == x + (if start.0 < end.0 then 1 else -1)))
      && (j' == j || (j' == j + 1 && y' == y + (if start.1 < end.1 then 1 else -1)))
      && (i' == i ==> x' == x) && (j' == j ==> y' == y) && (i', j') != (i, j)
      && (dx >= dy ==> i' == i + 1) && (dy >= dx ==> j' == j + 1)
    ensures Drawing(start, end, ps + [(x, y)], x', y', err', i', j')
  {
    var ux, uy := Sign(end.0 - start.0), Sign(end.1 - start.1);
    var ps' := ps + [(x, y)];
    forall k | 0 < k < |ps'| ensures StepToward(ps'[k - 1], ps'[k], ux, uy) {
      if k < |ps| {
        assert ps'[k - 1] == ps[k - 1] && ps'[k] == ps[k];
      }
    }
  }

  /** At the end, appending the last cell completes the line. */
  lemma DrawingDone(start: Pos, end: Pos, ps: seq<Pos>, err: int, i: int, j: int)
    requires Drawing(start, end, ps, end.0, end.1, err, i, j)
    ensures var ps' := ps + [end];
      |ps'| == Max(Abs(end.0 - start.0), Abs(end.1 - start.1)) + 1
      && ps'[0] == start && Walk(ps', Sign(end.0 - start.0), Sign(end.1 - start.1))
  {
    var ux, uy := Sign(end.0 - start.0), Sign(end.1 - start.1);
    var ps' := ps + [end];
    forall k | 0 < k < |ps'| ensures StepToward(ps'[k - 1], ps'[k], ux, uy) {
      if k < |ps| {
        assert ps'[k - 1] == ps[k - 1] && ps'[k] == ps[k];
      }
    }
  }

  /** `_interpolate_positions`: the all-octant integer line from `start` to
      `end`, one cell per step along the longer axis. */
  method InterpolatePositions(start: Pos, end: Pos) returns (positions: seq<Pos>)
    ensures |positions| == Max(Abs(end.0 - start.0), Abs(end.1 - start.1)) + 1
    ensures positions[0] == start && positions[|positions| - 1] == end
    ensures Walk(positions, Sign(end.0 - start.0), Sign(end.1 - start.1))
  {
    var x0, y0 := start.0, start.1;
    var x1, y1 := end.0, end.1;
    positions := [];
    var dx: int, dy: int := Abs(x1 - x0), Abs(y1 - y0);
    var sx: int := if x0 < x1 then 1 else -1;
    var sy: int := if y0 < y1 then 1 else -1;
    var err: int := dx - dy;
    ghost var i, j := 0, 0;
    while true
      invariant Drawing(start, end, positions, x0, y0, err, i, j)
      decreases dx - i + dy - j
    {
      if x0 == x1 && y0 == y1 {
        DrawingDone(start, end, positions, err, i, j);
        positions := positions + [(x0, y0)];
        break;
      }
      DrawingGoesOn(start, end, positions, x0, y0, err, i, j);
      var x, y, e, i0, j0 := x0, y0, err, i, j;
      x0, y0, err, i, j := Advance(dx, dy, sx, sy, x0, y0, err, i, j);
      DrawingStep(start, end, positions, x, y, e, i0, j0, x0, y0, err, i, j);
      positions := positions + [(x, y)];
    }
  }

  // ----- the auto-fill of a closed polygon -----

  /** Above this many filled cells a candidate area counts as open. */
  const MaxAutoFill := 5000

  /** A side of the zone that the fill ran into. */
  datatype Edge = Left | Right | Top | Bottom

  /** The zone an auto-fill may use: the zone under the stroke, or else the
      200×200 cells around a representative cell of it. */
  function AutoFillZone(zoneAt: Option<Fill.Zone>, rep: Pos): (z: Fill.Zone)
    ensures zoneAt.Some? ==> z == zoneAt.value
    ensures zoneAt.None? ==> Fill.InZone(rep, z) && z.w == 200 && z.h == 200
  {
    if zoneAt.Some? then zoneAt.value else Fill.OutsideZone(rep.0, rep.1)
  }

  /** Which bound a dequeued cell breaks, tested left, right, top, bottom in
      that order; None for a cell inside the zone. */
  function EdgeOf(c: Pos, z: Fill.Zone): (e: Option<Edge>)
    ensures e.None? <==> Fill.InZone(c, z)
    ensures e == Some(Left) ==> c.0 < z.x
    ensures e == Some(Right) ==> c.0 >= z.x + z.w
    ensures e == Some(Top) ==> c.1 < z.y
    ensures e == Some(Bottom) ==> c.1 >= z.y + z.h
  {
    if c.0 < z.x then Some(Left)
    else if c.0 >= z.x + z.w then Some(Right)
    else if c.1 < z.y then Some(Top)
    else if c.1 >= z.y + z.h then Some(Bottom)
    else None
  }

  /** The occupied cells as the predicate the flood search consults. */
  function OccupiedBy(occupied: set<Pos>): (int, int, int) -> bool {
    (x: int, y: int, l: int) => (x, y) in occupied
  }

  /** A cell left behind the head of the queue is no longer queued. */
  lemma LeftQueue(q0: seq<Pos>, q1: seq<Pos>, v: Pos)
    requires q0 != [] && |q1| >= |q0| - 1 && q1[..|q0| - 1] == q0[1..]
    requires v !in q1 && v != q0[0]
    ensures v !in q0
  {
    forall i | 0 < i < |q0| ensures q0[i] != v {
      assert q1[i - 1] == q0[1..][i - 1];
    }
  }

  /** The breadth-first search of `_try_auto_fill_closed_polygon` from one
      candidate: cells outside the zone are not filled but record the side
      they broke, occupied cells stop the fill, and the search gives up once
      more than `MaxAutoFill` cells are filled. */
  method AutoFillRegion(start: Pos, z: Fill.Zone, occupied: set<Pos>)
    returns (filled: set<Pos>, hits: set<Edge>, tooLarge: bool, ghost order: seq<Pos>)
    ensures forall p :: p in filled ==> Fill.InZone(p, z) && p !in occupied
    ensures Fill.Members(order) == filled && Fill.ConnectedOrder(order, start)
    ensures |filled| <= MaxAutoFill + 1
    ensures tooLarge ==> |filled| == MaxAutoFill + 1
    ensures !tooLarge ==> Fill.Closed(filled, z.x, z.y, z.x + z.w, z.y + z.h, OccupiedBy(occupied), 0)
    ensures forall e :: e in hits ==> Witnessed(e, filled, start, z)
    ensures !tooLarge ==> forall p, k :: p in filled && 0 <= k < 4 && EdgeOf(Fill.Step(p, k), z).Some? ==>
      EdgeOf(Fill.Step(p, k), z).value in hits
    ensures !tooLarge && EdgeOf(start, z).Some? ==> EdgeOf(start, z).value in hits
    ensures start in filled <==> Fill.InZone(start, z) && start !in occupied
  {
    var s;
    s, hits, tooLarge := AutoFillSearch(start, z, occupied);
    filled, order := s.filled, s.order;
    if tooLarge {
      assert order[0] in Fill.Members(order);
    } else {
      Fill.EmptyQueueClosed(s, start, z.x, z.y, z.x + z.w, z.y + z.h, OccupiedBy(occupied), 0);
      forall p, k | p in filled && 0 <= k < 4 && EdgeOf(Fill.Step(p, k), z).Some?
        ensures EdgeOf(Fill.Step(p, k), z).value in hits
      {
        assert Fill.Step(p, k) in s.visited;
      }
      assert start in s.visited;
    }
  }

  /** The loop of the search, with its record of the sides broken. */
  method AutoFillSearch(start: Pos, z: Fill.Zone, occupied: set<Pos>)
    returns (s: Fill.Search, hits: set<Edge>, tooLarge: bool)
    ensures Fill.SearchInv(s, start, z.x, z.y, z.x + z.w, z.y + z.h, OccupiedBy(occupied), 0)
    ensures Tracked(s, hits, start, z)
    ensures |s.filled| <= MaxAutoFill + 1
    ensures tooLarge ==> |s.filled| == MaxAutoFill + 1
    ensures !tooLarge ==> s.queue == []
  {
    var minX, minY, maxX, maxY := z.x, z.y, z.x + z.w, z.y + z.h;
    var occ := OccupiedBy(occupied);
    s := Fill.Search({}, [start], {start}, []);
    hits, tooLarge := {}, false;
    ghost var universe := Fill.Reach(start, minX, minY, maxX, maxY);
    assert start in universe;
    while s.queue != []
      invariant Fill.SearchInv(s, start, minX, minY, maxX, maxY, occ, 0)
      invariant |s.filled| <= MaxAutoFill + 1
      invariant !tooLarge
      invariant Tracked(s, hits, start, z)
      decreases |universe - s.visited|, |s.queue|
    {
      if |s.filled| > MaxAutoFill {
        tooLarge := true;
        break;
      }
      var c := s.queue[0];
      ghost var hits0 := hits;
      var e := EdgeOf(c, z);
      if e.Some? {
        hits := hits + {e.value};
      }
      ghost var s0 := s;
      DequeuedNext(s0, start, minX, minY, maxX, maxY, occ);
      s := Fill.Visit(s, start, minX, minY, maxX, maxY, occ, 0);
      TrackStep(s0, s, hits0, hits, c, start, z);
      if s.visited != s0.visited {
        Fill.Shrinks(universe, s0.visited, s.visited);
      }
    }
  }

  /** Side `e` was broken by a cell that is the start or next to a filled
      cell. */
  ghost predicate Witnessed(e: Edge, filled: set<Pos>, start: Pos, z: Fill.Zone) {
    exists c :: EdgeOf(c, z) == Some(e) && (c == start || exists p :: p in filled && Fill.Adjacent(c, p))
  }

  /** The search's record of the sides broken: each recorded side is
      witnessed, and every seen cell that has left the queue had its side
      recorded. */
  ghost predicate Tracked(s: Fill.Search, hits: set<Edge>, start: Pos, z: Fill.Zone) {
    (forall e :: e in hits ==> Witnessed(e, s.filled, start, z))
    && (forall v :: v in s.visited && v !in s.queue && EdgeOf(v, z).Some? ==> EdgeOf(v, z).value in hits)
  }

  /** Dequeuing `c` and recording its side keeps the record. */
  lemma TrackStep(s0: Fill.Search, s: Fill.Search, hits0: set<Edge>, hits: set<Edge>, c: Pos, start: Pos, z: Fill.Zone)
    requires Tracked(s0, hits0, start, z)
    requires s0.queue != [] && c == s0.queue[0]
    requires hits == if EdgeOf(c, z).Some? then hits0 + {EdgeOf(c, z).value} else hits0
    requires c != start ==> exists p :: p in s0.filled && Fill.Adjacent(c, p)
    requires s0.filled <= s.filled && s0.visited <= s.visited
    requires |s.queue| >= |s0.queue| - 1 && s.queue[..|s0.queue| - 1] == s0.queue[1..]
    requires forall v :: v in s.visited && v !in s0.visited ==> v in s.queue[|s0.queue| - 1..]
    ensures Tracked(s, hits, start, z)
  {
    forall e | e in hits ensures Witnessed(e, s.filled, start, z) {
      if e in hits0 {
        WitnessedMono(e, s0.filled, s.filled, start, z);
      } else {
        assert EdgeOf(c, z) == Some(e);
      }
    }
    forall v | v in s.visited && v !in s.queue && EdgeOf(v, z).Some? ensures EdgeOf(v, z).value in hits {
      assert v in s0.visited;
      if v != c {
        LeftQueue(s0.queue, s.queue, v);
      }
    }
  }

  lemma WitnessedMono(e: Edge, filled0: set<Pos>, filled: set<Pos>, start: Pos, z: Fill.Zone)
    requires Witnessed(e, filled0, start, z) && filled0 <= filled
    ensures Witnessed(e, filled, start, z)
  {
    var c :| EdgeOf(c, z) == Some(e) && (c == start || exists p :: p in filled0 && Fill.Adjacent(c, p));
    assert c == start || exists p :: p in filled && Fill.Adjacent(c, p);
  }

  /** The cell about to be dequeued is the start or next to a filled cell. */
  lemma DequeuedNext(s: Fill.Search, start: Pos, minX: int, minY: int, maxX: int, maxY: int,
                     occ: (int, int, int) -> bool)
    requires Fill.SearchInv(s, start, minX, minY, maxX, maxY, occ, 0) && s.queue != []
    ensures s.queue[0] != start ==> exists p :: p in s.filled && Fill.Adjacent(s.queue[0], p)
  {
    if s.queue[0] != start {
      var j :| 0 <= j < |s.order| && Fill.Adjacent(s.queue[0], s.order[j]);
      assert s.order[j] in Fill.Members(s.order);
    }
  }

  /** Terrain reaches the zone's `e` side: some occupied cell lies on the
      zone's first or last column or row. */
  predicate TerrainTouches(e: Edge, occupied: set<Pos>, z: Fill.Zone) {
    match e
    case Left => exists p :: p in occupied && p.0 == z.x
    case Right => exists p :: p in occupied && p.0 == z.x + z.w - 1
    case Top => exists p :: p in occupied && p.1 == z.y
    case Bottom => exists p :: p in occupied && p.1 == z.y + z.h - 1
  }

  /** The zone-edge test of `_try_auto_fill_closed_polygon`, flag by flag:
      the fill is invalid when it ran into a side of the zone that no
      terrain reaches. */
  function InvalidFill(hits: set<Edge>, occupied: set<Pos>, z: Fill.Zone): (invalid: bool)
    ensures invalid <==> exists e :: e in hits && !TerrainTouches(e, occupied, z)
  {
    var left := exists p :: p in occupied && p.0 == z.x;
    var right := exists p :: p in occupied && p.0 == z.x + z.w - 1;
    var top := exists p :: p in occupied && p.1 == z.y;
    var bottom := exists p :: p in occupied && p.1 == z.y + z.h - 1;
    assert left == TerrainTouches(Left, occupied, z) && right == TerrainTouches(Right, occupied, z);
    assert top == TerrainTouches(Top, occupied, z) && bottom == TerrainTouches(Bottom, occupied, z);
    EdgeByEdge(hits, occupied, z);
    (Left in hits && !left) || (Right in hits && !right) || (Top in hits && !top) || (Bottom in hits && !bottom)
  }

  /** A side missed by terrain is one of the four sides. */
  lemma EdgeByEdge(hits: set<Edge>, occupied: set<Pos>, z: Fill.Zone)
    ensures (exists e :: e in hits && !TerrainTouches(e, occupied, z))
      <==> ((Left in hits && !TerrainTouches(Left, occupied, z)) || (Right in hits && !TerrainTouches(Right, occupied, z))
            || (Top in hits && !TerrainTouches(Top, occupied, z)) || (Bottom in hits && !TerrainTouches(Bottom, occupied, z)))
  {
    if e :| e in hits && !TerrainTouches(e, occupied, z) {
      match e
      case Left => case Right => case Top => case Bottom =>
    }
  }

  /** What becomes of one finished search: nothing when it was too large or
      empty, or when (inside a zone) it ran into a side terrain does not
      reach; otherwise the fill, with the overpaint band when it ran into
      the zone's sides. */
  function AcceptRegion(filled: set<Pos>, hits: set<Edge>, tooLarge: bool, hasZone: bool,
                        occupied: set<Pos>, z: Fill.Zone): (r: Option<set<Pos>>)
    ensures r.Some? <==> !tooLarge && filled != {} && !(hasZone && InvalidFill(hits, occupied, z))
    ensures r.Some? && hasZone ==> forall e :: e in hits ==> TerrainTouches(e, occupied, z)
    ensures r.Some? ==> filled <= r.value
    ensures r.Some? ==> forall c :: c in r.value && Fill.InZone(c, z) ==> c in filled
    ensures r.Some? && (!hasZone || hits == {}) ==> r.value == filled
  {
    if tooLarge || filled == {} then None
    else if hits != {} && hasZone && InvalidFill(hits, occupied, z) then None
    else if hits != {} && hasZone then Some(Fill.AddOverpaint(filled, z))
    else Some(filled)
  }

  /** The candidate loop of `_try_auto_fill_closed_polygon`, over the
      candidates in iteration order: a candidate already painted or occupied
      is skipped, any other is searched, and an accepted region is painted
      and added to what is already painted. */
  method AutoFillCandidates(candidates: seq<Pos>, z: Fill.Zone, hasZone: bool, occupied: set<Pos>)
    returns (regions: seq<set<Pos>>, alreadyFilled: set<Pos>, ghost starts: seq<Pos>)
    ensures |starts| == |regions|
    ensures forall i :: 0 <= i < |regions| ==>
      starts[i] in candidates && starts[i] in regions[i] && starts[i] !in occupied
    ensures forall i, j :: 0 <= i < j < |regions| ==> starts[j] !in regions[i]
    ensures forall c :: c in alreadyFilled <==> exists i :: 0 <= i < |regions| && c in regions[i]
    ensures forall i, c :: 0 <= i < |regions| && c in regions[i] && Fill.InZone(c, z) ==> c !in occupied
  {
    regions, alreadyFilled, starts := [], {}, [];
    var k := 0;
    while k < |candidates|
      invariant 0 <= k <= |candidates|
      invariant |starts| == |regions|
      invariant forall i :: 0 <= i < |regions| ==>
        starts[i] in candidates[..k] && starts[i] in regions[i] && starts[i] !in occupied
      invariant forall i, j :: 0 <= i < j < |regions| ==> starts[j] !in regions[i]
      invariant forall c :: c in alreadyFilled <==> exists i :: 0 <= i < |regions| && c in regions[i]
      invariant forall i, c :: 0 <= i < |regions| && c in regions[i] && Fill.InZone(c, z) ==> c !in occupied
    {
      var start := candidates[k];
      if start !in alreadyFilled && start !in occupied {
        var region;
        ghost var filled;
        region, filled := AutoFillCandidate(start, z, hasZone, occupied);
        if region.Some? {
          ghost var regions0 := regions;
          regions, starts := regions + [region.value], starts + [start];
          alreadyFilled := alreadyFilled + region.value;
          forall c | c in alreadyFilled ensures exists i :: 0 <= i < |regions| && c in regions[i] {
            if c in region.value {
              assert regions[|regions0|] == region.value;
            } else {
              var i :| 0 <= i < |regions0| && c in regions0[i];
              assert regions[i] == regions0[i];
            }
          }
        }
      }
      k := k + 1;
    }
  }

  /** One candidate of `_try_auto_fill_closed_polygon`: the search from it
      and the decision on what it found. */
  method AutoFillCandidate(start: Pos, z: Fill.Zone, hasZone: bool, occupied: set<Pos>)
    returns (region: Option<set<Pos>>, ghost filled: set<Pos>)
    ensures forall p :: p in filled ==> Fill.InZone(p, z) && p !in occupied
    ensures region.Some? ==> filled != {} && |filled| <= MaxAutoFill + 1
    ensures region.Some? ==> Fill.Closed(filled, z.x, z.y, z.x + z.w, z.y + z.h, OccupiedBy(occupied), 0)
    ensures region.Some? ==> filled <= region.value
    ensures region.Some? ==> forall c :: c in region.value && Fill.InZone(c, z) ==> c in filled
    ensures region.Some? ==> start in region.value
    ensures start in filled <==> Fill.InZone(start, z) && start !in occupied
  {
    var found, hits, tooLarge;
    ghost var order;
    found, hits, tooLarge, order := AutoFillRegion(start, z, occupied);
    region := AcceptRegion(found, hits, tooLarge, hasZone, occupied, z);
    filled := found;
    if region.Some? {
      assert order[0] in Fill.Members(order);
    }
  }

  // ----- merging the vertical slices into rectangles -----

  /** The slices of the same top row and height, as a set of x-coordinates. */
  function SliceGroup(slices: seq<Placement>, key: (int, int)): (xs: set<int>)
    ensures forall x :: x in xs <==> exists p :: p in slices && p.x == x && (p.y, p.height) == key
  {
    set p | p in slices && (p.y, p.height) == key :: p.x
  }

  /** The (top row, height) keys of the slices. */
  function SliceKeys(slices: seq<Placement>): (keys: set<(int, int)>)
    ensures forall p :: p in slices ==> (p.y, p.height) in keys
    ensures forall k :: k in keys ==> exists p :: p in slices && (p.y, p.height) == k
  {
    set p | p in slices :: (p.y, p.height)
  }

  /** One rectangle per run of consecutive x-coordinates of a group. */
  function RowPlacements(runs: seq<Fill.Run>, tileset: int, id: int, layer: int, key: (int, int)): (ps: seq<Placement>)
    ensures |ps| == |runs|
    ensures forall i :: 0 <= i < |runs| ==>
      ps[i] == Placement(tileset, id, layer, runs[i].start, key.0, runs[i].height, key.1)
  {
    if runs == [] then []
    else [Placement(tileset, id, layer, runs[0].start, key.0, runs[0].height, key.1)]
         + RowPlacements(runs[1..], tileset, id, layer, key)
  }

  /** Step 3 of the auto-fill placement: slices with the same top row and
      height that sit side by side become one rectangle. The rectangles
      cover exactly the cells the slices covered, and do not overlap. */
  method MergeSlices(slices: seq<Placement>, tileset: int, id: int, layer: int) returns (rects: seq<Placement>)
    requires forall p :: p in slices ==> p.width == 1 && p.height >= 1
    requires Fill.Disjoint(slices)
    ensures forall c :: Fill.CellPlaced(c, rects) <==> Fill.CellPlaced(c, slices)
    ensures Fill.Disjoint(rects)
    ensures forall r :: r in rects ==> r.tileset == tileset && r.objectId == id && r.layer == layer
    ensures forall r :: r in rects ==> r.width >= 1 && r.height >= 1
  {
    rects := [];
    var keys := SliceKeys(slices);
    ghost var done: set<(int, int)> := {};
    while keys != {}
      invariant keys <= SliceKeys(slices)
      invariant keys !! done
      invariant forall p :: p in slices ==> (p.y, p.height) in keys + done
      invariant MergedSoFar(slices, rects, done, tileset, id, layer)
      decreases |keys|
    {
      var key :| key in keys;
      rects := MergeGroup(slices, key, rects, done, tileset, id, layer);
      keys := keys - {key};
      done := done + {key};
    }
    MergedCells(rects, slices, done, tileset, id, layer);
  }

  /** The rectangles made from the groups in `done`: each a good rectangle
      of a done group, together covering the cells of those groups'
      slices, without overlap. */
  ghost predicate MergedSoFar(slices: seq<Placement>, rects: seq<Placement>, done: set<(int, int)>,
                              tileset: int, id: int, layer: int) {
    (forall r :: r in rects ==> (r.y, r.height) in done && GoodRect(r, slices, tileset, id, layer))
    && (forall c :: (exists p :: p in slices && (p.y, p.height) in done && Covers(p, c)) ==> Fill.CellPlaced(c, rects))
    && Fill.Disjoint(rects)
  }

  /** One round of the merge: the slices of group `key` (same top row and
      height), sorted by column, cut into runs of adjacent columns, one
      rectangle per run. */
  method MergeGroup(slices: seq<Placement>, key: (int, int), rects: seq<Placement>, ghost done: set<(int, int)>,
                    tileset: int, id: int, layer: int) returns (rects': seq<Placement>)
    requires forall p :: p in slices ==> p.width == 1 && p.height >= 1
    requires Fill.Disjoint(slices)
    requires key !in done && key in SliceKeys(slices)
    requires MergedSoFar(slices, rects, done, tileset, id, layer)
    ensures MergedSoFar(slices, rects', done + {key}, tileset, id, layer)
  {
    var xs := Fill.SortedColumn(SliceGroup(slices, key));
    var runs := Fill.ColumnRuns(xs);
    var row := RowPlacements(runs, tileset, id, layer, key);
    PlaceRow(slices, key, xs, runs, row, rects, done, tileset, id, layer);
    rects' := rects + row;
  }

  /** Once every group is done, the rectangles cover exactly the cells of
      the slices. */
  lemma MergedCells(rects: seq<Placement>, slices: seq<Placement>, done: set<(int, int)>,
                    tileset: int, id: int, layer: int)
    requires forall p :: p in slices ==> p.width == 1 && (p.y, p.height) in done
    requires forall r :: r in rects ==> GoodRect(r, slices, tileset, id, layer)
    requires forall c :: (exists p :: p in slices && (p.y, p.height) in done && Covers(p, c)) ==> Fill.CellPlaced(c, rects)
    ensures forall c :: Fill.CellPlaced(c, rects) <==> Fill.CellPlaced(c, slices)
  {
    forall c | Fill.CellPlaced(c, rects) ensures Fill.CellPlaced(c, slices) {
      var r :| r in rects && Covers(r, c);
      RectCellPlaced(r, slices, tileset, id, layer, c);
    }
    forall c | Fill.CellPlaced(c, slices) ensures Fill.CellPlaced(c, rects) {
      var p :| p in slices && Covers(p, c);
      assert Covers(p, c);
    }
  }

  predicate Covers(p: Placement, c: Pos) {
    p.x <= c.0 < p.x + p.width && p.y <= c.1 < p.y + p.height
  }

  /** A merged rectangle: every column of it is a slice of the same top row
      and height. */
  predicate GoodRect(r: Placement, slices: seq<Placement>, tileset: int, id: int, layer: int) {
    r.tileset == tileset && r.objectId == id && r.layer == layer && r.width >= 1 && r.height >= 1
    && forall x :: r.x <= x < r.x + r.width ==> x in SliceGroup(slices, (r.y, r.height))
  }

  /** A cell of a merged rectangle is a cell of one of its slices. */
  lemma RectCellPlaced(r: Placement, slices: seq<Placement>, tileset: int, id: int, layer: int, c: Pos)
    requires GoodRect(r, slices, tileset, id, layer) && Covers(r, c)
    requires forall p :: p in slices ==> p.width == 1
    ensures Fill.CellPlaced(c, slices)
  {
    var x := c.0;
    assert x in SliceGroup(slices, (r.y, r.height));
    var p :| p in slices && p.x == x && (p.y, p.height) == (r.y, r.height);
    assert Covers(p, c);
  }

  /** Adding the rectangles of one group keeps the loop's invariants. */
  lemma PlaceRow(slices: seq<Placement>, key: (int, int), xs: seq<int>, runs: seq<Fill.Run>,
                 row: seq<Placement>, rects: seq<Placement>, done: set<(int, int)>,
                 tileset: int, id: int, layer: int)
    requires forall p :: p in slices ==> p.width == 1 && p.height >= 1
    requires Fill.Disjoint(slices)
    requires key !in done && key in SliceKeys(slices)
    requires forall x :: x in xs <==> x in SliceGroup(slices, key)
    requires forall r :: r in runs ==> Fill.MaximalRun(r, xs)
    requires forall x :: x in xs ==> Fill.Covered(x, runs)
    requires Fill.Separated(runs)
    requires |row| == |runs|
    requires forall i :: 0 <= i < |runs| ==>
      row[i] == Placement(tileset, id, layer, runs[i].start, key.0, runs[i].height, key.1)
    requires forall r :: r in rects ==> (r.y, r.height) in done && GoodRect(r, slices, tileset, id, layer)
    requires forall c :: (exists p :: p in slices && (p.y, p.height) in done && Covers(p, c)) ==> Fill.CellPlaced(c, rects)
    requires Fill.Disjoint(rects)
    ensures forall r :: r in rects + row ==> (r.y, r.height) in done + {key} && GoodRect(r, slices, tileset, id, layer)
    ensures forall c :: (exists p :: p in slices && (p.y, p.height) in done + {key} && Covers(p, c)) ==>
      Fill.CellPlaced(c, rects + row)
    ensures Fill.Disjoint(rects + row)
  {
    RowGood(slices, key, xs, runs, row, tileset, id, layer);
    RowCovers(slices, key, xs, runs, row, rects, done);
    RowDisjoint(slices, key, runs, row, rects, done, tileset, id, layer);
  }

  lemma RowGood(slices: seq<Placement>, key: (int, int), xs: seq<int>, runs: seq<Fill.Run>,
                row: seq<Placement>, tileset: int, id: int, layer: int)
    requires key in SliceKeys(slices)
    requires forall p :: p in slices ==> p.height >= 1
    requires forall x :: x in xs <==> x in SliceGroup(slices, key)
    requires forall r :: r in runs ==> Fill.MaximalRun(r, xs)
    requires |row| == |runs|
    requires forall i :: 0 <= i < |runs| ==>
      row[i] == Placement(tileset, id, layer, runs[i].start, key.0, runs[i].height, key.1)
    ensures forall r :: r in row ==> (r.y, r.height) == key && GoodRect(r, slices, tileset, id, layer)
  {
    var q :| q in slices && (q.y, q.height) == key;
    forall r | r in row ensures (r.y, r.height) == key && GoodRect(r, slices, tileset, id, layer) {
      var i :| 0 <= i < |row| && row[i] == r;
      assert Fill.MaximalRun(runs[i], xs);
    }
  }

  lemma RowCovers(slices: seq<Placement>, key: (int, int), xs: seq<int>, runs: seq<Fill.Run>,
                  row: seq<Placement>, rects: seq<Placement>, done: set<(int, int)>)
    requires forall p :: p in slices ==> p.width == 1
    requires forall x :: x in xs <==> x in SliceGroup(slices, key)
    requires forall x :: x in xs ==> Fill.Covered(x, runs)
    requires |row| == |runs|
    requires forall i :: 0 <= i < |runs| ==>
      row[i].x == runs[i].start && row[i].width == runs[i].height && (row[i].y, row[i].height) == key
    requires forall c :: (exists p :: p in slices && (p.y, p.height) in done && Covers(p, c)) ==> Fill.CellPlaced(c, rects)
    ensures forall c :: (exists p :: p in slices && (p.y, p.height) in done + {key} && Covers(p, c)) ==>
      Fill.CellPlaced(c, rects + row)
  {
    forall c | exists p :: p in slices && (p.y, p.height) in done + {key} && Covers(p, c)
      ensures Fill.CellPlaced(c, rects + row)
    {
      var p :| p in slices && (p.y, p.height) in done + {key} && Covers(p, c);
      if (p.y, p.height) in done {
        assert Fill.CellPlaced(c, rects);
        var r :| r in rects && r.x <= c.0 < r.x + r.width && r.y <= c.1 < r.y + r.height;
        assert r in rects + row;
      } else {
        var x := p.x;
        assert x in SliceGroup(slices, key);
        assert x in xs;
        var i :| 0 <= i < |runs| && Fill.InRun(x, runs[i]);
        assert Covers(row[i], c);
        assert row[i] in rects + row;
      }
    }
  }

  lemma RowDisjoint(slices: seq<Placement>, key: (int, int), runs: seq<Fill.Run>,
                    row: seq<Placement>, rects: seq<Placement>, done: set<(int, int)>,
                    tileset: int, id: int, layer: int)
    requires forall p :: p in slices ==> p.width == 1 && p.height >= 1
    requires Fill.Disjoint(slices)
    requires key !in done
    requires Fill.Separated(runs)
    requires |row| == |runs|
    requires forall i :: 0 <= i < |runs| ==>
      row[i].x == runs[i].start && row[i].width == runs[i].height && (row[i].y, row[i].height) == key
    requires forall r :: r in row ==> GoodRect(r, slices, tileset, id, layer)
    requires forall r :: r in rects ==> (r.y, r.height) in done && GoodRect(r, slices, tileset, id, layer)
    requires Fill.Disjoint(rects)
    ensures Fill.Disjoint(rects + row)
  {
    var all := rects + row;
    forall i, j | 0 <= i < j < |all| ensures !Overlap(all[i], all[j]) {
      if j < |rects| {
        assert all[i] == rects[i] && all[j] == rects[j];
      } else if i >= |rects| {
        assert all[i] == row[i - |rects|] && all[j] == row[j - |rects|];
        var a, b := i - |rects|, j - |rects|;
        assert runs[a].start + runs[a].height < runs[b].start;
      } else {
        assert all[i] in rects && all[j] in row;
        GroupsApart(all[i], all[j], slices, tileset, id, layer);
      }
    }
  }

  /** Rectangles of two different groups never overlap: a shared cell would
      lie in two different slices. */
  lemma GroupsApart(r: Placement, q: Placement, slices: seq<Placement>, tileset: int, id: int, layer: int)
    requires forall p :: p in slices ==> p.width == 1
    requires Fill.Disjoint(slices)
    requires GoodRect(r, slices, tileset, id, layer) && GoodRect(q, slices, tileset, id, layer)
    requires (r.y, r.height) != (q.y, q.height)
    ensures !Overlap(r, q)
  {
    if Overlap(r, q) {
      OverlapSameGroup(r, q, slices, tileset, id, layer);
    }
  }

  /** Overlapping merged rectangles come from the same group: a cell they
      share lies in a slice of each, and distinct slices do not overlap. */
  lemma OverlapSameGroup(r: Placement, q: Placement, slices: seq<Placement>, tileset: int, id: int, layer: int)
    requires forall p :: p in slices ==> p.width == 1
    requires Fill.Disjoint(slices)
    requires GoodRect(r, slices, tileset, id, layer) && GoodRect(q, slices, tileset, id, layer)
    requires Overlap(r, q)
    ensures (r.y, r.height) == (q.y, q.height)
  {
    var x := Max(r.x, q.x);
    assert x in SliceGroup(slices, (r.y, r.height)) && x in SliceGroup(slices, (q.y, q.height));
    var a :| a in slices && a.x == x && (a.y, a.height) == (r.y, r.height);
    var b :| b in slices && b.x == x && (b.y, b.height) == (q.y, q.height);
    var i :| 0 <= i < |slices| && slices[i] == a;
    var j :| 0 <= j < |slices| && slices[j] == b;
    assert Overlap(slices[i], slices[j]);
    assert i == j;
  }

  /** The placements of an accepted auto-fill region: its vertical slices,
      merged into rectangles. They cover exactly the region, without
      overlap. */
  method RegionPlacements(region: set<Pos>, tileset: int, id: int, layer: int) returns (rects: seq<Placement>)
    ensures forall c :: Fill.CellPlaced(c, rects) <==> c in region
    ensures Fill.Disjoint(rects)
    ensures forall r :: r in rects ==> r.tileset == tileset && r.objectId == id && r.layer == layer
  {
    var slices := Fill.VerticalSlices(region, tileset, id, layer);
    rects := MergeSlices(slices, tileset, id, layer);
    forall c | Fill.CellPlaced(c, slices) ensures c in region {
      SliceCellInRegion(slices, region, tileset, id, layer, c);
    }
  }

  /** A cell covered by a slice of a region is a cell of the region. */
  lemma SliceCellInRegion(slices: seq<Placement>, region: set<Pos>, tileset: int, id: int, layer: int, c: Pos)
    requires forall p :: p in slices ==> Fill.GoodPlacement(p, region, tileset, id, layer)
    requires Fill.CellPlaced(c, slices)
    ensures c in region
  {
    var p :| p in slices && Covers(p, c);
    assert Covers(p, c);
    assert c == (p.x, c.1);
  }

  // ----- deco fill -----

  function Cell(p: Pos, dx: int, dy: int): Pos {
    (p.0 + dx, p.1 + dy)
  }

  /** The cells a `w`×`h` object placed at `p` covers. */
  function Footprint(p: Pos, w: int, h: int): (cells: set<Pos>)
    ensures forall dx, dy :: 0 <= dx < w && 0 <= dy < h ==> Cell(p, dx, dy) in cells
    ensures forall c :: c in cells ==> exists dx, dy :: 0 <= dx < w && 0 <= dy < h && c == Cell(p, dx, dy)
  {
    set dx, dy | 0 <= dx < w && 0 <= dy < h :: Cell(p, dx, dy)
  }

  /** A cell a deco object may cover: in the fill area, not taken by an
      earlier deco object, and not a deco or foreign tile. */
  predicate DecoCell(c: Pos, fill: set<Pos>, shared: set<Pos>, blocked: set<Pos>) {
    c in fill && c !in shared && c !in blocked
  }

  /** The fit test of `_apply_deco_fill` for one position: a nested scan
      of the footprint that stops at the first cell that is outside the
      fill, already taken, or a deco or foreign tile. */
  method DecoFits(p: Pos, w: int, h: int, fill: set<Pos>, shared: set<Pos>, blocked: set<Pos>) returns (ok: bool)
    ensures ok <==> forall c :: c in Footprint(p, w, h) ==> DecoCell(c, fill, shared, blocked)
  {
    ok := true;
    var dx := 0;
    while dx < w && ok
      invariant 0 <= dx && (w <= 0 || dx <= w)
      invariant ok ==> forall a, b :: 0 <= a < dx && 0 <= b < h ==> DecoCell(Cell(p, a, b), fill, shared, blocked)
      invariant !ok ==> exists a, b :: 0 <= a < w && 0 <= b < h && !DecoCell(Cell(p, a, b), fill, shared, blocked)
      decreases w - dx, ok
    {
      var dy := 0;
      while dy < h
        invariant 0 <= dy && (h <= 0 || dy <= h)
        invariant forall b :: 0 <= b < dy ==> DecoCell(Cell(p, dx, b), fill, shared, blocked)
        decreases h - dy
      {
        if !DecoCell(Cell(p, dx, dy), fill, shared, blocked) {
          ok := false;
          break;
        }
        dy := dy + 1;
      }
      if ok {
        dx := dx + 1;
      }
    }
    if ok {
      forall c | c in Footprint(p, w, h) ensures DecoCell(c, fill, shared, blocked) {
        var a, b :| 0 <= a < w && 0 <= b < h && c == Cell(p, a, b);
      }
    }
  }

  /** The overlap test of the placement loop: does the footprint meet a
      cell already taken? */
  method FootprintTaken(p: Pos, w: int, h: int, shared: set<Pos>) returns (taken: bool)
    ensures taken <==> Footprint(p, w, h) * shared != {}
  {
    taken := false;
    var dx := 0;
    while dx < w && !taken
      invariant 0 <= dx && (w <= 0 || dx <= w)
      invariant !taken ==> forall a, b :: 0 <= a < dx && 0 <= b < h ==> Cell(p, a, b) !in shared
      invariant taken ==> exists a, b :: 0 <= a < w && 0 <= b < h && Cell(p, a, b) in shared
      decreases w - dx, !taken
    {
      var dy := 0;
      while dy < h
        invariant 0 <= dy && (h <= 0 || dy <= h)
        invariant forall b :: 0 <= b < dy ==> Cell(p, dx, b) !in shared
        decreases h - dy
      {
        if Cell(p, dx, dy) in shared {
          taken := true;
          break;
        }
        dy := dy + 1;
      }
      if !taken {
        dx := dx + 1;
      }
    }
    if taken {
      var a, b :| 0 <= a < w && 0 <= b < h && Cell(p, a, b) in shared;
      assert Cell(p, a, b) in Footprint(p, w, h) * shared;
    } else {
      forall c | c in Footprint(p, w, h) ensures c !in shared {
        var a, b :| 0 <= a < w && 0 <= b < h && c == Cell(p, a, b);
      }
    }
  }

  /** The filter of `_apply_deco_fill`: the fill positions, in iteration
      order, at which the whole object fits. */
  method ValidDecoPositions(positions: seq<Pos>, w: int, h: int, fill: set<Pos>, shared: set<Pos>, blocked: set<Pos>)
    returns (valid: seq<Pos>)
    ensures forall p :: p in valid <==>
      p in positions && forall c :: c in Footprint(p, w, h) ==> DecoCell(c, fill, shared, blocked)
    ensures |valid| <= |positions|
  {
    valid := [];
    var k := 0;
    while k < |positions|
      invariant 0 <= k <= |positions| && |valid| <= k
      invariant forall p :: p in valid <==>
        p in positions[..k] && forall c :: c in Footprint(p, w, h) ==> DecoCell(c, fill, shared, blocked)
    {
      var ok := DecoFits(positions[k], w, h, fill, shared, blocked);
      if ok {
        valid := valid + [positions[k]];
      }
      assert positions[..k + 1] == positions[..k] + [positions[k]];
      k := k + 1;
    }
    assert positions[..k] == positions;
  }

  /** How many deco objects to place: the valid positions times the
      probability `num / den`, divided by the object's area and rounded
      down, but at least one when the probability is positive. */
  function DecoQuota(validCount: nat, num: nat, den: nat, area: nat): (q: nat)
    requires den > 0 && area > 0
    ensures num > 0 ==> q >= 1
    ensures num == 0 ==> q == 0
    ensures q > 1 ==> q * den * area <= validCount * num
    ensures num <= den ==> q <= Max(1, validCount)
  {
    var n := validCount * num / (den * area);
    if n == 0 && num > 0 then 1
    else
      QuotaBound(validCount, num, den, area);
      n
  }

  lemma QuotaBound(validCount: nat, num: nat, den: nat, area: nat)
    requires den > 0 && area > 0
    ensures validCount * num / (den * area) * (den * area) <= validCount * num
    ensures num <= den ==> validCount * num / (den * area) <= validCount
  {
    var d := den * area;
    var n := validCount * num / d;
    assert n * d <= validCount * num;
    if num <= den {
      MulLe(validCount, num, den);
      MulLe(validCount, den, d);
      assert validCount * den <= validCount * d by {
        assert d == den * area && area >= 1;
        MulLe(den, 1, area);
      }
      MulCancel(d, n, validCount);
    }
  }

  lemma MulCancel(d: int, a: int, b: int)
    requires d > 0 && a * d <= b * d
    ensures a <= b
  {
    assert d * (b + 1) == d * b + d;
    if a > b {
      MulLe(d, b + 1, a);
    }
  }

  /** The placement loop of `_apply_deco_fill`, over the shuffled valid
      positions: stop at the quota; skip a position whose footprint meets a
      cell already taken; otherwise create the object and, when that
      succeeded (`created`), take its footprint. */
  method PlaceDeco(order: seq<Pos>, w: int, h: int, quota: nat, shared0: set<Pos>, created: seq<bool>)
    returns (placed: seq<Pos>, shared: set<Pos>)
    requires |created| == |order|
    ensures |placed| <= quota
    ensures forall p :: p in placed ==> p in order
    ensures forall p :: p in placed ==> Footprint(p, w, h) !! shared0
    ensures forall i, j :: 0 <= i < j < |placed| ==> Footprint(placed[i], w, h) !! Footprint(placed[j], w, h)
    ensures forall c :: c in shared <==> c in shared0 || exists p :: p in placed && c in Footprint(p, w, h)
    ensures |placed| < quota ==> forall i :: 0 <= i < |order| ==>
      order[i] in placed || !created[i] || Footprint(order[i], w, h) * shared != {}
  {
    placed, shared := [], shared0;
    var k := 0;
    while k < |order|
      invariant 0 <= k <= |order|
      invariant |placed| <= quota
      invariant forall p :: p in placed ==> p in order
      invariant forall p :: p in placed ==> Footprint(p, w, h) !! shared0
      invariant forall i, j :: 0 <= i < j < |placed| ==> Footprint(placed[i], w, h) !! Footprint(placed[j], w, h)
      invariant forall c :: c in shared <==> c in shared0 || exists p :: p in placed && c in Footprint(p, w, h)
      invariant |placed| < quota ==> forall i :: 0 <= i < k ==>
        order[i] in placed || !created[i] || Footprint(order[i], w, h) * shared != {}
    {
      if |placed| >= quota {
        break;
      }
      var p := order[k];
      var taken := FootprintTaken(p, w, h, shared);
      if !taken && created[k] {
        ghost var shared1 := shared;
        forall q | q in placed ensures Footprint(q, w, h) !! Footprint(p, w, h) {
          forall c | c in Footprint(q, w, h) ensures c !in Footprint(p, w, h) {
            assert c in shared1;
            assert c !in Footprint(p, w, h) * shared1;
          }
        }
        forall c | c in Footprint(p, w, h) ensures c !in shared0 {
          assert c !in Footprint(p, w, h) * shared1;
        }
        placed := placed + [p];
        shared := shared + Footprint(p, w, h);
      }
      k := k + 1;
    }
  }

  /** `cycle_deco_container` (the D key): nothing without containers;
      otherwise select the one after the first selected container, or the
      first one when none is selected. */
  method CycleDecoContainer(selected: seq<bool>) returns (next: Option<nat>)
    ensures next.None? <==> selected == []
    ensures next.Some? ==> next.value < |selected|
    ensures selected != [] && (forall i :: 0 <= i < |selected| ==> !selected[i]) ==> next == Some(0)
    ensures forall k :: 0 <= k < |selected| && selected[k] && (forall i :: 0 <= i < k ==> !selected[i]) ==>
      next == Some((k + 1) % |selected|)
  {
    if selected == [] {
      return None;
    }
    var current := -1;
    var i := 0;
    while i < |selected|
      invariant 0 <= i <= |selected|
      invariant forall j :: 0 <= j < i ==> !selected[j]
    {
      if selected[i] {
        current := i;
        break;
      }
      i := i + 1;
    }
    next := Some((current + 1) % |selected|);
  }
}
