/** The fill tool's engine (fill_engine.py): a bounded breadth-first flood
    fill over free cells of a zone, the IDLE / PREVIEW / WAITING_CONFIRM
    state machine around it, the overpaint band added beyond the zone's
    edges, and the split of the fill into vertical runs for placement. */
module Fill {
  import opened Common

  // ----- flood fill -----

  /** The four neighbour offsets, in the order the fill tries them. */
  const Offsets: seq<Pos> := [(0, 1), (0, -1), (1, 0), (-1, 0)]

  function Step(p: Pos, k: nat): Pos
    requires k < 4
  {
    (p.0 + Offsets[k].0, p.1 + Offsets[k].1)
  }

  predicate Adjacent(a: Pos, b: Pos) {
    Abs(a.0 - b.0) + Abs(a.1 - b.1) == 1
  }

  /** Inside `[minX, maxX) × [minY, maxY)`. */
  predicate InArea(p: Pos, minX: int, minY: int, maxX: int, maxY: int) {
    minX <= p.0 < maxX && minY <= p.1 < maxY
  }

  /** A fill order: it starts at `start` and every later cell is next to an
      earlier one, so every cell is 4-connected to `start` through the cells
      before it. */
  predicate ConnectedOrder(order: seq<Pos>, start: Pos) {
    (|order| > 0 ==> order[0] == start)
    && forall i :: 0 < i < |order| ==> Reached(order, i)
  }

  /** Cell `i` of the order is next to an earlier cell. */
  predicate Reached(order: seq<Pos>, i: nat)
    requires i < |order|
  {
    exists j :: 0 <= j < i && Adjacent(order[i], order[j])
  }

  /** No free cell of the area next to a filled cell is left out. */
  predicate Closed(filled: set<Pos>, minX: int, minY: int, maxX: int, maxY: int, occupied: (int, int, int) -> bool, layer: int) {
    forall p, k ::
      (p in filled && 0 <= k < 4 && InArea(Step(p, k), minX, minY, maxX, maxY)
       && !occupied(Step(p, k).0, Step(p, k).1, layer)) ==> Step(p, k) in filled
  }

  /** The cells the search may ever look at: the area grown by one, and the start. */
  function Reach(start: Pos, minX: int, minY: int, maxX: int, maxY: int): set<Pos> {
    (set x, y | minX - 1 <= x <= maxX && minY - 1 <= y <= maxY :: (x, y)) + {start}
  }

  /** The search's working state: the cells filled so far, the queue, the
      cells already seen, and (ghost) the filled cells in fill order. */
  datatype Search = Search(filled: set<Pos>, queue: seq<Pos>, visited: set<Pos>, ghost order: seq<Pos>)

  /** What the filled cells are: free cells of the area, listed by a
      connected fill order from the start. */
  ghost predicate FilledSound(s: Search, start: Pos, minX: int, minY: int, maxX: int, maxY: int,
                        occupied: (int, int, int) -> bool, layer: int) {
    (forall p :: p in s.filled ==> InArea(p, minX, minY, maxX, maxY) && !occupied(p.0, p.1, layer))
    && Members(s.order) == s.filled
    && ConnectedOrder(s.order, start)
    && (start in s.filled <==> |s.order| > 0)
  }

  /** How the queue relates to the fill order: the start is queued alone
      before anything is filled, and every other queued cell is next to a
      filled one. */
  ghost predicate QueueSound(s: Search, start: Pos) {
    (|s.order| == 0 ==> s.queue == [start] || s.queue == [])
    && (|s.order| > 0 ==> start !in s.queue)
    && forall i :: 0 <= i < |s.queue| && s.queue[i] != start ==>
         exists j :: 0 <= j < |s.order| && Adjacent(s.queue[i], s.order[j])
  }

  /** Nothing seen is lost: every neighbour of a filled cell has been seen,
      and every seen cell is filled, still queued, or not fillable. */
  ghost predicate SeenSound(s: Search, start: Pos, minX: int, minY: int, maxX: int, maxY: int,
                      occupied: (int, int, int) -> bool, layer: int) {
    start in s.visited
    && s.visited <= Reach(start, minX, minY, maxX, maxY)
    && (forall p, k :: p in s.filled && 0 <= k < 4 ==> Step(p, k) in s.visited)
    && (forall v :: v in s.visited ==>
          v in s.filled || v in s.queue || !InArea(v, minX, minY, maxX, maxY) || occupied(v.0, v.1, layer))
  }

  ghost predicate SearchInv(s: Search, start: Pos, minX: int, minY: int, maxX: int, maxY: int,
                      occupied: (int, int, int) -> bool, layer: int) {
    FilledSound(s, start, minX, minY, maxX, maxY, occupied, layer)
    && QueueSound(s, start)
    && SeenSound(s, start, minX, minY, maxX, maxY, occupied, layer)
  }

  /** `_flood_fill`: breadth-first search from the start over free cells of
      the area, stopping once `limit` cells are filled while work is left.
      The ghost `order` lists the filled cells in the order they were filled. */
  method FloodFill(start: Pos, minX: int, minY: int, maxX: int, maxY: int, limit: Option<nat>,
                   occupied: (int, int, int) -> bool, layer: int)
    returns (filled: set<Pos>, interrupted: bool, ghost order: seq<Pos>)
    ensures forall p :: p in filled ==> InArea(p, minX, minY, maxX, maxY) && !occupied(p.0, p.1, layer)
    ensures Members(order) == filled && ConnectedOrder(order, start)
    ensures limit.Some? ==> |filled| <= limit.value
    ensures interrupted ==> limit.Some? && |filled| == limit.value
    ensures limit.None? ==> !interrupted
    ensures !interrupted ==> Closed(filled, minX, minY, maxX, maxY, occupied, layer)
    ensures start in filled <==>
      InArea(start, minX, minY, maxX, maxY) && !occupied(start.0, start.1, layer) && limit != Some(0)
  {
    var s := Search({}, [start], {start}, []);
    interrupted := false;
    ghost var universe := Reach(start, minX, minY, maxX, maxY);
    assert start in universe;
    while s.queue != []
      invariant SearchInv(s, start, minX, minY, maxX, maxY, occupied, layer)
      invariant limit.Some? ==> |s.filled| <= limit.value
      invariant !interrupted
      decreases |universe - s.visited|, |s.queue|
    {
      if limit.Some? && |s.filled| >= limit.value {
        interrupted := true;
        break;
      }
      ghost var seen := s.visited;
      s := Visit(s, start, minX, minY, maxX, maxY, occupied, layer);
      if s.visited != seen {
        Shrinks(universe, seen, s.visited);
      }
    }
    filled, order := s.filled, s.order;
    if interrupted {
      assert |filled| == limit.value;
    } else {
      EmptyQueueClosed(s, start, minX, minY, maxX, maxY, occupied, layer);
    }
  }

  /** Once the queue is empty the fill is closed, and the start is filled
      exactly when it can be. */
  lemma EmptyQueueClosed(s: Search, start: Pos, minX: int, minY: int, maxX: int, maxY: int,
                         occupied: (int, int, int) -> bool, layer: int)
    requires SearchInv(s, start, minX, minY, maxX, maxY, occupied, layer) && s.queue == []
    ensures Closed(s.filled, minX, minY, maxX, maxY, occupied, layer)
    ensures start in s.filled <==> InArea(start, minX, minY, maxX, maxY) && !occupied(start.0, start.1, layer)
  {
    assert start in s.visited;
  }

  /** One round of the loop of `_flood_fill`: take the first queued cell;
      skip it if it is outside the area or occupied, otherwise fill it and
      queue its unseen neighbours. */
  method Visit(s: Search, start: Pos, minX: int, minY: int, maxX: int, maxY: int,
               occupied: (int, int, int) -> bool, layer: int) returns (t: Search)
    requires SearchInv(s, start, minX, minY, maxX, maxY, occupied, layer) && s.queue != []
    ensures SearchInv(t, start, minX, minY, maxX, maxY, occupied, layer)
    ensures s.filled <= t.filled && |t.filled| <= |s.filled| + 1
    ensures s.visited <= t.visited
    ensures t.visited == s.visited ==> |t.queue| < |s.queue|
    ensures |t.queue| >= |s.queue| - 1 && t.queue[..|s.queue| - 1] == s.queue[1..]
    ensures forall v :: v in t.visited && v !in s.visited ==> v in t.queue[|s.queue| - 1..]
  {
    var c := s.queue[0];
    var rest := s.queue[1..];
    if !InArea(c, minX, minY, maxX, maxY) || occupied(c.0, c.1, layer) {
      t := Search(s.filled, rest, s.visited, s.order);
      SkipKeepsInv(s, t, start, minX, minY, maxX, maxY, occupied, layer);
      assert t.queue[..|s.queue| - 1] == rest;
      return;
    }
    var visited, queue := PushNeighbours(c, s.visited, rest);
    t := Search(s.filled + {c}, queue, visited, s.order + [c]);
    ReachHolds(c, start, minX, minY, maxX, maxY);
    FillKeepsFilled(s, t, c, start, minX, minY, maxX, maxY, occupied, layer);
    FillKeepsQueue(s, t, c, start);
    FillKeepsSeen(s, t, c, start, minX, minY, maxX, maxY, occupied, layer);
  }

  lemma SkipKeepsInv(s: Search, t: Search, start: Pos, minX: int, minY: int, maxX: int, maxY: int,
                     occupied: (int, int, int) -> bool, layer: int)
    requires SearchInv(s, start, minX, minY, maxX, maxY, occupied, layer) && s.queue != []
    requires !InArea(s.queue[0], minX, minY, maxX, maxY) || occupied(s.queue[0].0, s.queue[0].1, layer)
    requires t == Search(s.filled, s.queue[1..], s.visited, s.order)
    ensures SearchInv(t, start, minX, minY, maxX, maxY, occupied, layer)
  {
    forall v | v in t.visited
      ensures v in t.filled || v in t.queue || !InArea(v, minX, minY, maxX, maxY) || occupied(v.0, v.1, layer)
    {
      if v in s.queue && v != s.queue[0] {
        var i :| 0 <= i < |s.queue| && s.queue[i] == v;
        assert t.queue[i - 1] == v;
      }
    }
    forall i | 0 <= i < |t.queue| && t.queue[i] != start
      ensures exists j :: 0 <= j < |t.order| && Adjacent(t.queue[i], t.order[j])
    {
      assert t.queue[i] == s.queue[i + 1];
    }
    if |s.order| > 0 {
      forall i | 0 <= i < |t.queue| ensures t.queue[i] != start {
        assert t.queue[i] == s.queue[i + 1];
      }
    }
  }

  lemma FillKeepsFilled(s: Search, t: Search, c: Pos, start: Pos, minX: int, minY: int, maxX: int, maxY: int,
                        occupied: (int, int, int) -> bool, layer: int)
    requires SearchInv(s, start, minX, minY, maxX, maxY, occupied, layer) && s.queue != [] && c == s.queue[0]
    requires InArea(c, minX, minY, maxX, maxY) && !occupied(c.0, c.1, layer)
    requires t.filled == s.filled + {c} && t.order == s.order + [c]
    ensures FilledSound(t, start, minX, minY, maxX, maxY, occupied, layer)
  {
    OrderCellsSnoc(s.order, c);
    if |s.order| > 0 {
      assert c != start;
      assert exists j :: 0 <= j < |s.order| && Adjacent(s.queue[0], s.order[j]);
    } else {
      assert c == start;
    }
    OrderSnocConnected(s.order, c, start);
  }

  /** The cells listed in a fill order. */
  function Members(order: seq<Pos>): set<Pos> {
    set p | p in order
  }

  /** Filling one more cell adds it to the set of filled cells. */
  lemma OrderCellsSnoc(order: seq<Pos>, c: Pos)
    ensures Members(order + [c]) == Members(order) + {c}
  {
    assert forall p :: p in order + [c] <==> p in order || p == c;
  }

  /** A cell next to an already filled one (or the start, first) extends a connected order. */
  lemma OrderSnocConnected(order: seq<Pos>, c: Pos, start: Pos)
    requires ConnectedOrder(order, start)
    requires |order| == 0 ==> c == start
    requires |order| > 0 ==> exists j :: 0 <= j < |order| && Adjacent(c, order[j])
    ensures ConnectedOrder(order + [c], start)
  {
    var t := order + [c];
    forall i | 0 < i < |t| ensures Reached(t, i) {
      if i < |order| {
        assert Reached(order, i);
        var j :| 0 <= j < i && Adjacent(order[i], order[j]);
        assert t[j] == order[j];
      } else {
        var j :| 0 <= j < |order| && Adjacent(c, order[j]);
        assert t[j] == order[j];
      }
    }
  }

  lemma FillKeepsQueue(s: Search, t: Search, c: Pos, start: Pos)
    requires QueueSound(s, start) && s.queue != [] && c == s.queue[0] && start in s.visited
    requires t.order == s.order + [c]
    requires |t.queue| >= |s.queue| - 1 && t.queue[..|s.queue| - 1] == s.queue[1..]
    requires forall i :: |s.queue| - 1 <= i < |t.queue| ==> Adjacent(t.queue[i], c) && t.queue[i] !in s.visited
    ensures QueueSound(t, start)
  {
    forall i | 0 <= i < |t.queue| && t.queue[i] != start
      ensures exists j :: 0 <= j < |t.order| && Adjacent(t.queue[i], t.order[j])
    {
      if i >= |s.queue| - 1 {
        assert Adjacent(t.queue[i], t.order[|s.order|]);
      } else {
        assert t.queue[i] == s.queue[i + 1];
        var j :| 0 <= j < |s.order| && Adjacent(s.queue[i + 1], s.order[j]);
        assert t.order[j] == s.order[j];
      }
    }
    forall i | 0 <= i < |t.queue| ensures t.queue[i] != start {
      if i < |s.queue| - 1 {
        assert t.queue[i] == s.queue[i + 1];
      }
    }
  }

  lemma FillKeepsSeen(s: Search, t: Search, c: Pos, start: Pos, minX: int, minY: int, maxX: int, maxY: int,
                      occupied: (int, int, int) -> bool, layer: int)
    requires SeenSound(s, start, minX, minY, maxX, maxY, occupied, layer) && s.queue != [] && c == s.queue[0]
    requires t.filled == s.filled + {c}
    requires t.visited == s.visited + {Step(c, 0), Step(c, 1), Step(c, 2), Step(c, 3)}
    requires forall k :: 0 <= k < 4 ==> Step(c, k) in Reach(start, minX, minY, maxX, maxY)
    requires |t.queue| >= |s.queue| - 1 && t.queue[..|s.queue| - 1] == s.queue[1..]
    requires forall i :: |s.queue| - 1 <= i < |t.queue| ==> t.queue[i] !in s.visited
    requires forall n :: n in t.visited && n !in s.visited ==> n in t.queue[|s.queue| - 1..]
    ensures SeenSound(t, start, minX, minY, maxX, maxY, occupied, layer)
  {
    forall p, k | p in t.filled && 0 <= k < 4 ensures Step(p, k) in t.visited {
      if p != c { assert p in s.filled; }
    }
    forall v | v in t.visited
      ensures v in t.filled || v in t.queue || !InArea(v, minX, minY, maxX, maxY) || occupied(v.0, v.1, layer)
    {
      if v in s.visited && v in s.queue && v != c {
        var i :| 0 <= i < |s.queue| && s.queue[i] == v;
        assert t.queue[i - 1] == v;
      }
    }
  }

  /** The inner loop of `_flood_fill`: each neighbour not yet seen is marked
      seen and queued, in offset order. */
  method PushNeighbours(c: Pos, visited0: set<Pos>, queue0: seq<Pos>) returns (visited: set<Pos>, queue: seq<Pos>)
    ensures visited == visited0 + {Step(c, 0), Step(c, 1), Step(c, 2), Step(c, 3)}
    ensures |queue| >= |queue0| && queue[..|queue0|] == queue0
    ensures forall i :: |queue0| <= i < |queue| ==> Adjacent(queue[i], c) && queue[i] !in visited0
    ensures visited == visited0 ==> queue == queue0
    ensures forall n :: n in visited && n !in visited0 ==> n in queue[|queue0|..]
  {
    visited, queue := visited0, queue0;
    ghost var added: seq<Pos> := [];
    for k := 0 to 4
      invariant visited == visited0 + set j | 0 <= j < k :: Step(c, j)
      invariant queue == queue0 + added
      invariant forall i :: 0 <= i < |added| ==> Adjacent(added[i], c) && added[i] !in visited0
      invariant visited == visited0 ==> added == []
      invariant forall n :: n in visited && n !in visited0 ==> n in added
    {
      var n := Step(c, k);
      if n !in visited {
        visited := visited + {n};
        queue := queue + [n];
        added := added + [n];
      }
      assert (set j | 0 <= j < k + 1 :: Step(c, j)) == (set j | 0 <= j < k :: Step(c, j)) + {n};
    }
    assert (set j | 0 <= j < 4 :: Step(c, j)) == {Step(c, 0), Step(c, 1), Step(c, 2), Step(c, 3)};
    assert queue[|queue0|..] == added && queue[..|queue0|] == queue0;
  }

  /** The neighbours of a cell of the area are cells the search may look at. */
  lemma ReachHolds(c: Pos, start: Pos, minX: int, minY: int, maxX: int, maxY: int)
    requires InArea(c, minX, minY, maxX, maxY)
    ensures forall k :: 0 <= k < 4 ==> Step(c, k) in Reach(start, minX, minY, maxX, maxY)
  {
    forall k | 0 <= k < 4 ensures Step(c, k) in Reach(start, minX, minY, maxX, maxY) {
      var n := Step(c, k);
      assert minX - 1 <= n.0 <= maxX && minY - 1 <= n.1 <= maxY;
    }
  }

  /** Seeing more of a finite set leaves less of it unseen. */
  lemma Shrinks<T>(u: set<T>, a: set<T>, b: set<T>)
    requires a <= b <= u && a != b
    ensures |u - b| < |u - a|
  {
    var x :| x in b && x !in a;
    assert u - a == (u - b) + (b - a);
    assert (u - b) * (b - a) == {};
    assert x in b - a;
  }

  /** What a call of `_flood_fill` guarantees about its result. */
  ghost predicate FloodOutcome(filled: set<Pos>, interrupted: bool, start: Pos, z: Zone, limit: Option<nat>,
                               occupied: (int, int, int) -> bool, layer: int) {
    (forall p :: p in filled ==> InZone(p, z) && !occupied(p.0, p.1, layer))
    && (exists order: seq<Pos> :: Members(order) == filled && ConnectedOrder(order, start))
    && (limit.Some? ==> |filled| <= limit.value)
    && (interrupted ==> limit.Some? && |filled| == limit.value)
    && (!interrupted ==> Closed(filled, z.x, z.y, z.x + z.w, z.y + z.h, occupied, layer))
    && (start in filled <==> InZone(start, z) && !occupied(start.0, start.1, layer) && limit != Some(0))
  }

  /** `_flood_fill` over the zone `[x, x+w) × [y, y+h)`. */
  method FloodZone(start: Pos, z: Zone, limit: Option<nat>, occupied: (int, int, int) -> bool, layer: int)
    returns (filled: set<Pos>, interrupted: bool)
    ensures FloodOutcome(filled, interrupted, start, z, limit, occupied, layer)
    ensures limit.None? ==> !interrupted
  {
    ghost var order;
    filled, interrupted, order := FloodFill(start, z.x, z.y, z.x + z.w, z.y + z.h, limit, occupied, layer);
  }

  // ----- overpaint -----

  /** The fill stops at the zone's edge; this many cells beyond it are painted too. */
  const OverpaintSize := 4

  /** A zone as `(x, y, width, height)` in tiles. */
  datatype Zone = Zone(x: int, y: int, w: int, h: int) {
    function Right(): int { x + w - 1 }
    function Bottom(): int { y + h - 1 }
  }

  predicate InZone(p: Pos, z: Zone) {
    InArea(p, z.x, z.y, z.x + z.w, z.y + z.h)
  }

  /** The cell `d` steps left, right, up or down of `p`. */
  function LeftBy(p: Pos, d: int): Pos { (p.0 - d, p.1) }
  function RightBy(p: Pos, d: int): Pos { (p.0 + d, p.1) }
  function UpBy(p: Pos, d: int): Pos { (p.0, p.1 - d) }
  function DownBy(p: Pos, d: int): Pos { (p.0, p.1 + d) }

  function Offset(x0: int, y0: int, dx: int, dy: int): Pos { (x0 + dx, y0 + dy) }

  /** The 4×4 block whose top-left cell is `(x0, y0)`. */
  function Block(x0: int, y0: int): set<Pos> {
    set dx, dy | 0 <= dx < OverpaintSize && 0 <= dy < OverpaintSize :: Offset(x0, y0, dx, dy)
  }

  /** `_add_overpaint`: each fill cell on a zone edge extends the fill by
      four cells beyond that edge, and each filled zone corner adds the 4×4
      block beyond it. Empty input is returned unchanged. */
  function AddOverpaint(positions: set<Pos>, z: Zone): (r: set<Pos>)
    ensures positions <= r
    ensures positions == {} ==> r == {}
    ensures forall c :: c in r && c !in positions ==> !InZone(c, z)
  {
    if positions == {} then positions
    else
      var left, right, top, bottom := z.x, z.Right(), z.y, z.Bottom();
      positions
      + (set p, d | p in positions && p.0 == left && 1 <= d <= OverpaintSize :: LeftBy(p, d))
      + (set p, d | p in positions && p.0 == right && 1 <= d <= OverpaintSize :: RightBy(p, d))
      + (set p, d | p in positions && p.1 == top && 1 <= d <= OverpaintSize :: UpBy(p, d))
      + (set p, d | p in positions && p.1 == bottom && 1 <= d <= OverpaintSize :: DownBy(p, d))
      + (if (left, top) in positions then Block(left - OverpaintSize, top - OverpaintSize) else {})
      + (if (right, top) in positions then Block(right + 1, top - OverpaintSize) else {})
      + (if (left, bottom) in positions then Block(left - OverpaintSize, bottom + 1) else {})
      + (if (right, bottom) in positions then Block(right + 1, bottom + 1) else {})
  }

  /** Cell by cell, what the overpaint adds: a cell up to four beyond an
      edge whose cell in the same row (or column) is filled, or a cell of
      the 4×4 block beyond a corner whose exact corner cell is filled. */
  predicate Overpainted(c: Pos, positions: set<Pos>, z: Zone) {
    var left, right, top, bottom := z.x, z.Right(), z.y, z.Bottom();
    var beforeLeft, afterRight := left - OverpaintSize <= c.0 < left, right < c.0 <= right + OverpaintSize;
    var aboveTop, belowBottom := top - OverpaintSize <= c.1 < top, bottom < c.1 <= bottom + OverpaintSize;
    (beforeLeft && (left, c.1) in positions)
    || (afterRight && (right, c.1) in positions)
    || (aboveTop && (c.0, top) in positions)
    || (belowBottom && (c.0, bottom) in positions)
    || (beforeLeft && aboveTop && (left, top) in positions)
    || (afterRight && aboveTop && (right, top) in positions)
    || (beforeLeft && belowBottom && (left, bottom) in positions)
    || (afterRight && belowBottom && (right, bottom) in positions)
  }

  /** The overpaint holds exactly the input and the overpainted cells. */
  lemma OverpaintCells(positions: set<Pos>, z: Zone, c: Pos)
    ensures c in AddOverpaint(positions, z) <==> c in positions || Overpainted(c, positions, z)
  {
    if positions != {} && Overpainted(c, positions, z) {
      var left, right, top, bottom := z.x, z.Right(), z.y, z.Bottom();
      if (left - OverpaintSize <= c.0 < left && (left, c.1) in positions)
         || (right < c.0 <= right + OverpaintSize && (right, c.1) in positions)
         || (top - OverpaintSize <= c.1 < top && (c.0, top) in positions)
         || (bottom < c.1 <= bottom + OverpaintSize && (c.0, bottom) in positions) {
        BandCell(positions, z, c);
      } else {
        CornerCell(positions, z, c);
      }
    }
  }

  lemma BandCell(positions: set<Pos>, z: Zone, c: Pos)
    requires positions != {}
    requires var left, right, top, bottom := z.x, z.Right(), z.y, z.Bottom();
      (left - OverpaintSize <= c.0 < left && (left, c.1) in positions)
      || (right < c.0 <= right + OverpaintSize && (right, c.1) in positions)
      || (top - OverpaintSize <= c.1 < top && (c.0, top) in positions)
      || (bottom < c.1 <= bottom + OverpaintSize && (c.0, bottom) in positions)
    ensures c in AddOverpaint(positions, z)
  {
    var left, right, top, bottom := z.x, z.Right(), z.y, z.Bottom();
    if left - OverpaintSize <= c.0 < left && (left, c.1) in positions {
      assert c == LeftBy((left, c.1), left - c.0);
    } else if right < c.0 <= right + OverpaintSize && (right, c.1) in positions {
      assert c == RightBy((right, c.1), c.0 - right);
    } else if top - OverpaintSize <= c.1 < top && (c.0, top) in positions {
      assert c == UpBy((c.0, top), top - c.1);
    } else {
      assert c == DownBy((c.0, bottom), c.1 - bottom);
    }
  }

  lemma CornerCell(positions: set<Pos>, z: Zone, c: Pos)
    requires positions != {}
    requires var left, right, top, bottom := z.x, z.Right(), z.y, z.Bottom();
      var beforeLeft, afterRight := left - OverpaintSize <= c.0 < left, right < c.0 <= right + OverpaintSize;
      var aboveTop, belowBottom := top - OverpaintSize <= c.1 < top, bottom < c.1 <= bottom + OverpaintSize;
      (beforeLeft && aboveTop && (left, top) in positions)
      || (afterRight && aboveTop && (right, top) in positions)
      || (beforeLeft && belowBottom && (left, bottom) in positions)
      || (afterRight && belowBottom && (right, bottom) in positions)
    ensures c in AddOverpaint(positions, z)
  {
    var left, right, top, bottom := z.x, z.Right(), z.y, z.Bottom();
    if left - OverpaintSize <= c.0 < left && top - OverpaintSize <= c.1 < top && (left, top) in positions {
      assert c == Offset(left - OverpaintSize, top - OverpaintSize, c.0 - left + OverpaintSize, c.1 - top + OverpaintSize);
    } else if right < c.0 <= right + OverpaintSize && top - OverpaintSize <= c.1 < top && (right, top) in positions {
      assert c == Offset(right + 1, top - OverpaintSize, c.0 - right - 1, c.1 - top + OverpaintSize);
    } else if left - OverpaintSize <= c.0 < left && bottom < c.1 <= bottom + OverpaintSize && (left, bottom) in positions {
      assert c == Offset(left - OverpaintSize, bottom + 1, c.0 - left + OverpaintSize, c.1 - bottom - 1);
    } else {
      assert c == Offset(right + 1, bottom + 1, c.0 - right - 1, c.1 - bottom - 1);
    }
  }

  // ----- vertical runs -----

  predicate Increasing(ys: seq<int>) {
    forall i, j :: 0 <= i < j < |ys| ==> ys[i] < ys[j]
  }

  /** The cells `start .. start + height - 1` of one column. */
  datatype Run = Run(start: int, height: int)

  /** A run of consecutive values all in `ys` that cannot be extended either way. */
  predicate MaximalRun(r: Run, ys: seq<int>) {
    r.height >= 1
    && (forall k :: r.start <= k < r.start + r.height ==> k in ys)
    && r.start - 1 !in ys && r.start + r.height !in ys
  }

  predicate InRun(y: int, r: Run) {
    r.start <= y < r.start + r.height
  }

  /** Some run holds `y`. */
  predicate Covered(y: int, runs: seq<Run>) {
    exists r :: r in runs && InRun(y, r)
  }

  /** Runs listed top to bottom, each ending above a gap before the next. */
  predicate Separated(runs: seq<Run>) {
    forall i, j :: 0 <= i < j < |runs| ==> runs[i].start + runs[i].height < runs[j].start
  }

  /** The run scan of `get_fill_placements` from index `i` of a column's
      sorted y-values on, with `runStart .. runEnd` the run still open:
      a value one above the open run extends it, any other value closes
      it and opens a new one, and the end of the column closes it. */
  function Scan(ys: seq<int>, i: nat, runStart: int, runEnd: int): seq<Run>
    requires i <= |ys|
    decreases |ys| - i
  {
    if i == |ys| then [Run(runStart, runEnd - runStart + 1)]
    else if ys[i] == runEnd + 1 then Scan(ys, i + 1, runStart, ys[i])
    else [Run(runStart, runEnd - runStart + 1)] + Scan(ys, i + 1, ys[i], ys[i])
  }

  /** The runs of one column; an empty column has none. */
  function Runs(ys: seq<int>): seq<Run> {
    if ys == [] then [] else Scan(ys, 1, ys[0], ys[0])
  }

  /** The scan loop of `get_fill_placements` for one column. */
  method ColumnRuns(ys: seq<int>) returns (runs: seq<Run>)
    requires Increasing(ys)
    ensures runs == Runs(ys)
    ensures forall r :: r in runs ==> MaximalRun(r, ys)
    ensures forall y :: y in ys ==> Covered(y, runs)
    ensures Separated(runs)
    ensures runs == [] <==> ys == []
  {
    runs := [];
    RunsFacts(ys);
    if ys == [] {
      return;
    }
    var runStart, runEnd := ys[0], ys[0];
    for i := 1 to |ys|
      invariant runs + Scan(ys, i, runStart, runEnd) == Runs(ys)
    {
      if ys[i] == runEnd + 1 {
        runEnd := ys[i];
      } else {
        var r := Run(runStart, runEnd - runStart + 1);
        assert runs + Scan(ys, i, runStart, runEnd) == (runs + [r]) + Scan(ys, i + 1, ys[i], ys[i]);
        runs := runs + [r];
        runStart, runEnd := ys[i], ys[i];
      }
    }
    runs := runs + [Run(runStart, runEnd - runStart + 1)];
  }

  /** The runs of a sorted column are maximal, separated, and cover it. */
  lemma RunsFacts(ys: seq<int>)
    requires Increasing(ys)
    ensures forall r :: r in Runs(ys) ==> MaximalRun(r, ys)
    ensures forall y :: y in ys ==> Covered(y, Runs(ys))
    ensures Separated(Runs(ys))
    ensures Runs(ys) == [] <==> ys == []
  {
    if ys != [] {
      assert OpenRun(ys, 0, 1);
      ScanFacts(ys, 0, 1);
      forall y | y in ys ensures Covered(y, Runs(ys)) {
        var k :| 0 <= k < |ys| && ys[k] == y;
      }
    }
  }

  /** `ys[j..i]` is the open run (consecutive values, after a gap or at the
      start of the column). */
  predicate OpenRun(ys: seq<int>, j: int, i: int) {
    0 <= j < i <= |ys|
    && (forall k :: j <= k < i ==> ys[k] == ys[j] + (k - j))
    && (j == 0 || ys[j - 1] < ys[j] - 1)
  }

  /** Runs of `ys` that are maximal, separated, start at `lo` or later, and
      cover `ys[j..]`. */
  predicate RunsFrom(s: seq<Run>, ys: seq<int>, j: nat, lo: int) {
    (forall r :: r in s ==> MaximalRun(r, ys))
    && (forall k :: j <= k < |ys| ==> Covered(ys[k], s))
    && Separated(s)
    && (forall r :: r in s ==> lo <= r.start)
  }

  /** What the rest of the scan emits from an open run `ys[j..i]` on. */
  lemma {:induction false} ScanFacts(ys: seq<int>, j: int, i: int)
    requires Increasing(ys) && OpenRun(ys, j, i)
    ensures RunsFrom(Scan(ys, i, ys[j], ys[i - 1]), ys, j, ys[j])
    decreases |ys| - i
  {
    if i == |ys| {
      ScanEnds(ys, j);
    } else if ys[i] == ys[i - 1] + 1 {
      OpenGrows(ys, j, i);
      ScanFacts(ys, j, i + 1);
      ScanGrowFacts(ys, j, i);
    } else {
      OpenStarts(ys, j, i);
      ScanFacts(ys, i, i + 1);
      ScanCutFacts(ys, j, i);
    }
  }

  /** Extending the open run by one value leaves the emitted runs as they are. */
  lemma ScanGrowFacts(ys: seq<int>, j: int, i: int)
    requires OpenRun(ys, j, i) && i < |ys| && ys[i] == ys[i - 1] + 1
    requires RunsFrom(Scan(ys, i + 1, ys[j], ys[i]), ys, j, ys[j])
    ensures RunsFrom(Scan(ys, i, ys[j], ys[i - 1]), ys, j, ys[j])
  {
    ScanExtends(ys, i, ys[j], ys[i - 1]);
  }

  lemma OpenGrows(ys: seq<int>, j: int, i: int)
    requires OpenRun(ys, j, i) && i < |ys| && ys[i] == ys[i - 1] + 1
    ensures OpenRun(ys, j, i + 1)
  {
  }

  lemma OpenStarts(ys: seq<int>, j: int, i: int)
    requires Increasing(ys) && OpenRun(ys, j, i) && i < |ys| && ys[i] != ys[i - 1] + 1
    ensures OpenRun(ys, i, i + 1)
  {
    assert ys[i - 1] < ys[i];
  }

  /** At the end of the column the scan emits the open run alone. */
  lemma ScanEnds(ys: seq<int>, j: int)
    requires Increasing(ys) && OpenRun(ys, j, |ys|)
    ensures RunsFrom(Scan(ys, |ys|, ys[j], ys[|ys| - 1]), ys, j, ys[j])
  {
    var r := Run(ys[j], ys[|ys| - 1] - ys[j] + 1);
    CloseRun(ys, j, |ys|);
    LastRunFacts(ys, j, r);
  }

  /** At a gap the scan emits the closed run, then the runs from `i` on. */
  lemma ScanCutFacts(ys: seq<int>, j: int, i: int)
    requires Increasing(ys) && OpenRun(ys, j, i) && i < |ys| && ys[i] != ys[i - 1] + 1
    requires RunsFrom(Scan(ys, i + 1, ys[i], ys[i]), ys, i, ys[i])
    ensures RunsFrom(Scan(ys, i, ys[j], ys[i - 1]), ys, j, ys[j])
  {
    var rest := Scan(ys, i + 1, ys[i], ys[i]);
    var r := Run(ys[j], ys[i - 1] - ys[j] + 1);
    ScanCuts(ys, i, ys[j], ys[i - 1]);
    CutRun(ys, j, i, r, rest, Scan(ys, i, ys[j], ys[i - 1]));
  }

  /** The closed run `r` followed by `rest` keeps the run facts. */
  lemma CutRun(ys: seq<int>, j: int, i: int, r: Run, rest: seq<Run>, s: seq<Run>)
    requires Increasing(ys) && OpenRun(ys, j, i) && i < |ys| && ys[i] != ys[i - 1] + 1
    requires r == Run(ys[j], ys[i - 1] - ys[j] + 1) && s == [r] + rest
    requires RunsFrom(rest, ys, i, ys[i])
    ensures RunsFrom(s, ys, j, ys[j])
  {
    assert ys[i - 1] < ys[i];
    CloseRun(ys, j, i);
    ConsRun(ys, j, i, r, rest);
  }

  lemma ScanExtends(ys: seq<int>, i: nat, runStart: int, runEnd: int)
    requires i < |ys| && ys[i] == runEnd + 1
    ensures Scan(ys, i, runStart, runEnd) == Scan(ys, i + 1, runStart, ys[i])
  {
  }

  lemma ScanCuts(ys: seq<int>, i: nat, runStart: int, runEnd: int)
    requires i < |ys| && ys[i] != runEnd + 1
    ensures Scan(ys, i, runStart, runEnd) == [Run(runStart, runEnd - runStart + 1)] + Scan(ys, i + 1, ys[i], ys[i])
  {
  }

  /** The last run, closed at the end of the column. */
  lemma LastRunFacts(ys: seq<int>, j: int, r: Run)
    requires OpenRun(ys, j, |ys|) && r == Run(ys[j], ys[|ys| - 1] - ys[j] + 1) && MaximalRun(r, ys)
    ensures RunsFrom([r], ys, j, ys[j])
  {
    forall k | j <= k < |ys| ensures Covered(ys[k], [r]) {
      assert r in [r] && InRun(ys[k], r);
    }
  }

  /** A run closed at a gap before `ys[i]`, followed by the runs from `i` on. */
  lemma ConsRun(ys: seq<int>, j: int, i: int, r: Run, rest: seq<Run>)
    requires OpenRun(ys, j, i) && i < |ys| && ys[i - 1] + 1 < ys[i]
    requires r == Run(ys[j], ys[i - 1] - ys[j] + 1) && MaximalRun(r, ys)
    requires RunsFrom(rest, ys, i, ys[i])
    ensures RunsFrom([r] + rest, ys, j, ys[j])
  {
    ConsCovers(ys, j, i, r, rest);
    ConsSeparated(r, rest, ys[i]);
  }

  /** The closed run covers `ys[j..i]` and the later runs cover the rest. */
  lemma ConsCovers(ys: seq<int>, j: int, i: int, r: Run, rest: seq<Run>)
    requires OpenRun(ys, j, i) && i < |ys|
    requires r == Run(ys[j], ys[i - 1] - ys[j] + 1)
    requires forall k :: i <= k < |ys| ==> Covered(ys[k], rest)
    ensures forall k :: j <= k < |ys| ==> Covered(ys[k], [r] + rest)
  {
    var s := [r] + rest;
    forall k | j <= k < |ys| ensures Covered(ys[k], s) {
      if k < i {
        assert r in s && InRun(ys[k], r);
      } else {
        assert Covered(ys[k], rest);
        var q :| q in rest && InRun(ys[k], q);
        assert q in s;
      }
    }
  }

  /** A run ending before a gap below `lo` stays separated from runs starting at `lo` or later. */
  lemma ConsSeparated(r: Run, rest: seq<Run>, lo: int)
    requires r.start + r.height < lo
    requires Separated(rest) && forall q :: q in rest ==> lo <= q.start
    ensures Separated([r] + rest)
  {
    var s := [r] + rest;
    forall a, b | 0 <= a < b < |s| ensures s[a].start + s[a].height < s[b].start {
      if a == 0 {
        assert s[b] in rest;
      } else {
        assert s[a] == rest[a - 1] && s[b] == rest[b - 1];
      }
    }
  }

  /** The run `ys[j..i]` of consecutive values, with a gap (or nothing)
      on both sides, is maximal. */
  lemma CloseRun(ys: seq<int>, j: int, i: int)
    requires Increasing(ys) && 0 <= j < i <= |ys|
    requires forall k :: j <= k < i ==> ys[k] == ys[j] + (k - j)
    requires j == 0 || ys[j - 1] < ys[j] - 1
    requires i == |ys| || ys[i] != ys[i - 1] + 1
    ensures MaximalRun(Run(ys[j], ys[i - 1] - ys[j] + 1), ys)
  {
    var r := Run(ys[j], ys[i - 1] - ys[j] + 1);
    forall k | r.start <= k < r.start + r.height ensures k in ys {
      assert ys[j + (k - r.start)] == k;
    }
    forall k | 0 <= k < |ys| ensures ys[k] != r.start - 1 && ys[k] != r.start + r.height {
      if k < j {
        assert ys[k] <= ys[j - 1];
      } else if k >= i {
        assert ys[k] >= ys[i];
      }
    }
  }

  /** The values of a finite set in increasing order (the column sort of `get_fill_placements`). */
  method SortedColumn(col: set<int>) returns (ys: seq<int>)
    ensures Increasing(ys)
    ensures forall y :: y in ys <==> y in col
  {
    ys := [];
    var left := col;
    while left != {}
      invariant left <= col
      invariant Increasing(ys)
      invariant forall y :: y in col ==> (y in ys <==> y !in left)
      invariant forall y :: y in ys ==> y in col
      invariant forall y, z :: y in ys && z in left ==> y < z
      decreases |left|
    {
      MinExists(left);
      var m :| m in left && forall z :: z in left ==> m <= z;
      forall i, j | 0 <= i < j < |ys + [m]| ensures (ys + [m])[i] < (ys + [m])[j] {
        assert (ys + [m])[i] == ys[i];
        if j == |ys| {
          assert ys[i] in ys;
        }
      }
      ys := ys + [m];
      left := left - {m};
    }
  }

  lemma MinExists(s: set<int>)
    requires s != {}
    ensures exists m :: m in s && forall z :: z in s ==> m <= z
    decreases |s|
  {
    IntSetHasMember(s);
    var x :| x in s;
    if s - {x} != {} {
      MinExists(s - {x});
      var m :| m in s - {x} && forall z :: z in s - {x} ==> m <= z;
      forall z | z in s ensures Min(x, m) <= z {
        if z != x {
          assert z in s - {x};
        }
      }
      assert Min(x, m) in s;
    } else {
      assert forall z :: z in s ==> z == x;
    }
  }

  // ----- the engine -----

  /** Above this many cells an inside-zone fill asks before going on and an
      outside-zone fill is abandoned. */
  const MaxFillArea: nat := 2048

  datatype FillState = Idle | Preview | WaitingConfirm | Confirmed

  datatype FillResult = FillResult(positions: set<Pos>, exceededLimit: bool, outsideZone: bool, interrupted: bool)

  /** The zone an outside-zone fill searches: 200×200 cells around the click. */
  function OutsideZone(x: int, y: int): (z: Zone)
    ensures InZone((x, y), z)
  {
    Zone(x - 100, y - 100, 200, 200)
  }

  /** The outcome of the second half of `start_fill`: the flood fill
      limited to `MaxFillArea` cells found `filled`. A complete fill is
      previewed (with overpaint unless it is an outside-zone fill); an
      interrupted one waits for confirmation, or is dropped when outside any
      zone. `next` is the new state, None when the state is left as it was. */
  ghost predicate LimitedOutcome(positions: set<Pos>, result: FillResult, next: Option<FillState>, filled: set<Pos>,
                                 start: Pos, z: Zone, outside: bool, occupied: (int, int, int) -> bool, layer: int) {
    FloodOutcome(filled, result.interrupted, start, z, Some(MaxFillArea), occupied, layer)
    && (InZone(start, z) && !occupied(start.0, start.1, layer) ==> filled != {})
    && result.positions == positions
    && (filled == {} ==> result == FillResult({}, false, false, false) && next == None && positions == {})
    && (filled != {} && result.interrupted && outside ==>
          result == FillResult({}, true, false, true) && next == Some(Idle))
    && (filled != {} && result.interrupted && !outside ==>
          result == FillResult(filled, true, false, true) && next == Some(WaitingConfirm))
    && (filled != {} && !result.interrupted ==>
          !result.exceededLimit && !result.outsideZone && next == Some(Preview)
          && positions == (if outside then filled else AddOverpaint(filled, z)))
  }

  /** The second half of `start_fill`. */
  method LimitedFill(start: Pos, z: Zone, outside: bool, occupied: (int, int, int) -> bool, layer: int)
    returns (positions: set<Pos>, result: FillResult, next: Option<FillState>, ghost filled: set<Pos>)
    ensures LimitedOutcome(positions, result, next, filled, start, z, outside, occupied, layer)
  {
    var found, interrupted := FloodZone(start, z, Some(MaxFillArea), occupied, layer);
    filled := found;
    positions := found;
    result := FillResult(found, interrupted, false, interrupted);
    next := None;
    if found != {} {
      if interrupted {
        if outside {
          positions := {};
          next := Some(Idle);
          result := FillResult({}, true, false, true);
        } else {
          next := Some(WaitingConfirm);
        }
      } else {
        if !outside {
          positions := AddOverpaint(positions, z);
        }
        result := FillResult(positions, false, false, false);
        next := Some(Preview);
      }
    }
  }

  /** The work of `continue_fill`: an unlimited fill from `start` in `z`, with its overpaint border. */
  ghost predicate FullOutcome(positions: set<Pos>, filled: set<Pos>, start: Pos, z: Zone,
                              occupied: (int, int, int) -> bool, layer: int)
  {
    FloodOutcome(filled, false, start, z, None, occupied, layer)
    && positions == AddOverpaint(filled, z)
  }

  method FullFill(start: Pos, z: Zone, occupied: (int, int, int) -> bool, layer: int)
    returns (positions: set<Pos>, ghost filled: set<Pos>)
    ensures FullOutcome(positions, filled, start, z, occupied, layer)
    ensures positions == {} <==> filled == {}
  {
    var found, interrupted := FloodZone(start, z, None, occupied, layer);
    filled := found;
    positions := found;
    if positions != {} {
      positions := AddOverpaint(positions, z);
    }
  }

  /** `FillEngine`: the fill tool's state. The zone lookup and the occupancy
      test are callbacks in the source; here they are arguments. */
  class FillEngine {
    var state: FillState
    var fillPositions: set<Pos>
    var fillObjectId: Option<int>
    var tilesetIdx: int
    var layer: int
    var zoneBounds: Option<Zone>
    var startPos: Option<Pos>
    var isOutsideZoneFill: bool

    constructor()
      ensures state == Idle && fillPositions == {} && fillObjectId == None
      ensures tilesetIdx == 0 && layer == 1 && zoneBounds == None && startPos == None
    {
      state, fillPositions, fillObjectId := Idle, {}, None;
      tilesetIdx, layer := 0, 1;
      zoneBounds, startPos := None, None;
      isOutsideZoneFill := false;
    }

    /** `set_fill_object`: the layer is stored as given, unclamped. */
    method SetFillObject(tileset: int, objectId: int, layer': int)
      modifies this
      ensures tilesetIdx == tileset && fillObjectId == Some(objectId) && layer == layer'
      ensures state == old(state) && fillPositions == old(fillPositions)
      ensures zoneBounds == old(zoneBounds) && startPos == old(startPos) && isOutsideZoneFill == old(isOutsideZoneFill)
    {
      tilesetIdx, fillObjectId, layer := tileset, Some(objectId), layer';
    }

    /** `set_layer`: clamped to the three layers. */
    method SetLayer(layer': int)
      modifies this
      ensures 0 <= layer <= 2 && (0 <= layer' <= 2 ==> layer == layer')
      ensures layer == Clamp(0, 2, layer')
      ensures state == old(state) && fillPositions == old(fillPositions) && fillObjectId == old(fillObjectId)
      ensures tilesetIdx == old(tilesetIdx) && zoneBounds == old(zoneBounds) && startPos == old(startPos)
      ensures isOutsideZoneFill == old(isOutsideZoneFill)
    {
      layer := Max(0, Min(2, layer'));
    }

    /** `start_fill`: `zoneAt` is the zone-bounds callback's answer at the
        click (None without a callback), `occupied` the occupancy callback
        (constantly false without one). The ghost `filled` is what the
        limited flood fill found. */
    method StartFill(x: int, y: int, allowOutside: bool, zoneAt: Option<Zone>, occupied: (int, int, int) -> bool)
      returns (result: FillResult, ghost filled: set<Pos>, ghost next: Option<FillState>)
      modifies this
      ensures fillObjectId == old(fillObjectId) && tilesetIdx == old(tilesetIdx) && layer == old(layer)
      ensures result.positions == fillPositions
      ensures zoneAt.None? && !allowOutside ==>
        result == FillResult({}, false, true, false) && state == Idle
        && zoneBounds == old(zoneBounds) && startPos == old(startPos)
      ensures (zoneAt.Some? || allowOutside) && occupied(x, y, layer) ==>
        result == FillResult({}, false, false, false) && state == Idle
        && zoneBounds == old(zoneBounds) && startPos == old(startPos)
      ensures (zoneAt.Some? || allowOutside) && !occupied(x, y, layer) ==>
        var z := if zoneAt.Some? then zoneAt.value else OutsideZone(x, y);
        && zoneBounds == Some(z) && startPos == Some((x, y)) && isOutsideZoneFill == zoneAt.None?
        && LimitedOutcome(fillPositions, result, next, filled, (x, y), z, zoneAt.None?, occupied, layer)
        && state == (if next.Some? then next.value else old(state))
    {
      filled := {};
      var l := layer;
      var z: Zone;
      var outside := false;
      if zoneAt.None? {
        if !allowOutside {
          state, fillPositions, isOutsideZoneFill := Idle, {}, false;
          return FillResult({}, false, true, false), filled, None;
        }
        z := OutsideZone(x, y);
        outside := true;
      } else {
        z := zoneAt.value;
      }
      if occupied(x, y, l) {
        state, fillPositions, isOutsideZoneFill := Idle, {}, outside;
        return FillResult({}, false, false, false), filled, None;
      }
      var positions, after;
      positions, result, after, filled := LimitedFill((x, y), z, outside, occupied, l);
      fillPositions, isOutsideZoneFill, zoneBounds, startPos := positions, outside, Some(z), Some((x, y));
      next := after;
      if after.Some? {
        state := after.value;
      }
    }

    /** `confirm_fill`: hands over the previewed cells (as a set; the source's
        list order is unspecified) and returns to IDLE. */
    method ConfirmFill() returns (positions: set<Pos>)
      modifies this
      ensures old(state) == Preview || old(state) == WaitingConfirm ==>
        positions == old(fillPositions) && fillPositions == {} && state == Idle
      ensures !(old(state) == Preview || old(state) == WaitingConfirm) ==>
        positions == {} && fillPositions == old(fillPositions) && state == old(state)
      ensures fillObjectId == old(fillObjectId) && tilesetIdx == old(tilesetIdx) && layer == old(layer)
      ensures zoneBounds == old(zoneBounds) && startPos == old(startPos) && isOutsideZoneFill == old(isOutsideZoneFill)
    {
      if state != Preview && state != WaitingConfirm {
        return {};
      }
      positions := fillPositions;
      state := Confirmed;
      fillPositions := {};
      state := Idle;
    }

    /** `continue_fill`: after the user agrees, redo the stored fill without
        a limit and add the overpaint. */
    method ContinueFill(occupied: (int, int, int) -> bool) returns (result: FillResult, ghost filled: set<Pos>)
      modifies this
      ensures fillObjectId == old(fillObjectId) && tilesetIdx == old(tilesetIdx) && layer == old(layer)
      ensures zoneBounds == old(zoneBounds) && startPos == old(startPos) && isOutsideZoneFill == old(isOutsideZoneFill)
      ensures old(state) != WaitingConfirm || zoneBounds.None? || startPos.None? ==>
        result == FillResult({}, false, false, false) && state == old(state) && fillPositions == old(fillPositions)
      ensures old(state) == WaitingConfirm && zoneBounds.Some? && startPos.Some? ==>
        FullOutcome(fillPositions, filled, startPos.value, zoneBounds.value, occupied, layer)
        && result == FillResult(fillPositions, false, false, false)
        && state == (if filled != {} then Preview else WaitingConfirm)
    {
      filled := {};
      if state != WaitingConfirm || zoneBounds.None? || startPos.None? {
        return FillResult({}, false, false, false), filled;
      }
      var z, start, l := zoneBounds.value, startPos.value, layer;
      var positions;
      positions, filled := FullFill(start, z, occupied, l);
      result := FillResult(positions, false, false, false);
      fillPositions, state := positions, if positions != {} then Preview else state;
    }

    /** `cancel_fill`. */
    method CancelFill()
      modifies this
      ensures fillPositions == {} && state == Idle
      ensures fillObjectId == old(fillObjectId) && tilesetIdx == old(tilesetIdx) && layer == old(layer)
      ensures zoneBounds == old(zoneBounds) && startPos == old(startPos) && isOutsideZoneFill == old(isOutsideZoneFill)
    {
      fillPositions := {};
      state := Idle;
    }

    /** `get_fill_placements`: nothing without a (non-zero) object id;
        otherwise each column of the fill is cut into maximal vertical runs,
        one width-1 placement per run. Columns come in an unspecified order. */
    method GetFillPlacements() returns (ps: seq<Placement>)
      ensures fillObjectId.None? || fillObjectId == Some(0) ==> ps == []
      ensures forall p :: p in ps ==> fillObjectId.Some? && GoodPlacement(p, fillPositions, tilesetIdx, fillObjectId.value, layer)
      ensures fillObjectId.Some? && fillObjectId != Some(0) ==> forall c :: c in fillPositions ==> CellPlaced(c, ps)
      ensures Disjoint(ps)
    {
      ps := [];
      if fillObjectId.None? || fillObjectId == Some(0) {
        return;
      }
      ps := VerticalSlices(fillPositions, tilesetIdx, fillObjectId.value, layer);
    }
  }

  /** The column loop of `get_fill_placements`: each column of `fill`, in
      an unspecified order, cut into maximal vertical runs, one width-1
      placement per run. */
  method VerticalSlices(fill: set<Pos>, tileset: int, id: int, layer: int) returns (ps: seq<Placement>)
    ensures forall p :: p in ps ==> GoodPlacement(p, fill, tileset, id, layer)
    ensures forall c :: c in fill ==> CellPlaced(c, ps)
    ensures Disjoint(ps)
  {
    ps := [];
    var columns := ColumnsOf(fill);
    ghost var done: set<int> := {};
    while columns != {}
      invariant columns !! done
      invariant forall c :: c in fill ==> c.0 in columns || c.0 in done
      invariant forall p :: p in ps ==> p.x in done && GoodPlacement(p, fill, tileset, id, layer)
      invariant forall c :: c in fill && c.0 in done ==> CellPlaced(c, ps)
      invariant Disjoint(ps)
      decreases |columns|
    {
      IntSetHasMember(columns);
      var x :| x in columns;
      var ys := SortedColumn(ColumnOf(fill, x));
      var runs := ColumnRuns(ys);
      var column := ColumnPlacements(runs, tileset, id, layer, x);
      PlaceColumn(fill, x, ys, runs, column, ps, done, tileset, id, layer);
      ps := ps + column;
      columns := columns - {x};
      done := done + {x};
    }
  }

  /** The x-coordinates of the cells of `fill`. */
  function ColumnsOf(fill: set<Pos>): (xs: set<int>)
    ensures forall c :: c in fill ==> c.0 in xs
  {
    set c | c in fill :: c.0
  }

  /** The y-coordinates of the cells of column `x` of `fill`. */
  function ColumnOf(fill: set<Pos>, x: int): (ys: set<int>)
    ensures forall y :: y in ys <==> (x, y) in fill
  {
    set c | c in fill && c.0 == x :: c.1
  }

  /** A width-1 placement of the fill object that covers a maximal vertical
      run of filled cells. */
  predicate GoodPlacement(p: Placement, fill: set<Pos>, tileset: int, id: int, layer: int) {
    p.width == 1 && p.height >= 1 && p.tileset == tileset && p.objectId == id && p.layer == layer
    && (forall k :: p.y <= k < p.y + p.height ==> (p.x, k) in fill)
    && (p.x, p.y - 1) !in fill && (p.x, p.y + p.height) !in fill
  }

  /** Some placement covers cell `c`. */
  predicate CellPlaced(c: Pos, ps: seq<Placement>) {
    exists p :: p in ps && p.x <= c.0 < p.x + p.width && p.y <= c.1 < p.y + p.height
  }

  predicate Disjoint(ps: seq<Placement>) {
    forall i, j :: 0 <= i < j < |ps| ==> !Overlap(ps[i], ps[j])
  }

  /** One width-1 placement per run of column `x`. */
  function ColumnPlacements(runs: seq<Run>, tileset: int, id: int, layer: int, x: int): (ps: seq<Placement>)
    ensures |ps| == |runs|
    ensures forall i :: 0 <= i < |runs| ==> ps[i] == Placement(tileset, id, layer, x, runs[i].start, 1, runs[i].height)
  {
    if runs == [] then []
    else [Placement(tileset, id, layer, x, runs[0].start, 1, runs[0].height)]
         + ColumnPlacements(runs[1..], tileset, id, layer, x)
  }

  /** Appending the runs of a new column keeps the placement invariants. */
  lemma PlaceColumn(fill: set<Pos>, x: int, ys: seq<int>, runs: seq<Run>, column: seq<Placement>, ps: seq<Placement>,
                    done: set<int>, tileset: int, id: int, layer: int)
    requires x !in done
    requires forall y :: y in ys <==> (x, y) in fill
    requires forall r :: r in runs ==> MaximalRun(r, ys)
    requires forall y :: y in ys ==> Covered(y, runs)
    requires Separated(runs)
    requires |column| == |runs|
    requires forall i :: 0 <= i < |runs| ==> column[i] == Placement(tileset, id, layer, x, runs[i].start, 1, runs[i].height)
    requires forall p :: p in ps ==> p.x in done && p.width == 1
    requires forall c :: c in fill && c.0 in done ==> CellPlaced(c, ps)
    requires Disjoint(ps)
    ensures forall p :: p in ps + column ==> p.x in done + {x} && (p in ps || GoodPlacement(p, fill, tileset, id, layer))
    ensures forall c :: c in fill && c.0 in done + {x} ==> CellPlaced(c, ps + column)
    ensures Disjoint(ps + column)
  {
    ColumnGood(fill, x, ys, runs, column, tileset, id, layer);
    ColumnCovers(fill, x, ys, runs, column, ps, done, tileset, id, layer);
    ColumnDisjoint(x, runs, column, ps, done, tileset, id, layer);
  }

  lemma ColumnGood(fill: set<Pos>, x: int, ys: seq<int>, runs: seq<Run>, column: seq<Placement>,
                   tileset: int, id: int, layer: int)
    requires forall y :: y in ys <==> (x, y) in fill
    requires forall r :: r in runs ==> MaximalRun(r, ys)
    requires |column| == |runs|
    requires forall i :: 0 <= i < |runs| ==> column[i] == Placement(tileset, id, layer, x, runs[i].start, 1, runs[i].height)
    ensures forall p :: p in column ==> p.x == x && GoodPlacement(p, fill, tileset, id, layer)
  {
    forall p | p in column ensures p.x == x && GoodPlacement(p, fill, tileset, id, layer) {
      var i :| 0 <= i < |column| && column[i] == p;
      assert MaximalRun(runs[i], ys);
    }
  }

  lemma ColumnCovers(fill: set<Pos>, x: int, ys: seq<int>, runs: seq<Run>, column: seq<Placement>, ps: seq<Placement>,
                     done: set<int>, tileset: int, id: int, layer: int)
    requires forall y :: y in ys <==> (x, y) in fill
    requires forall y :: y in ys ==> Covered(y, runs)
    requires |column| == |runs|
    requires forall i :: 0 <= i < |runs| ==> column[i] == Placement(tileset, id, layer, x, runs[i].start, 1, runs[i].height)
    requires forall c :: c in fill && c.0 in done ==> CellPlaced(c, ps)
    ensures forall c :: c in fill && c.0 in done + {x} ==> CellPlaced(c, ps + column)
  {
    forall c | c in fill && c.0 in done + {x} ensures CellPlaced(c, ps + column) {
      if c.0 == x {
        var y := c.1;
        assert (x, y) in fill;
        assert y in ys;
        assert Covered(c.1, runs);
        var r :| r in runs && InRun(c.1, r);
        var i :| 0 <= i < |runs| && runs[i] == r;
        assert column[i] in ps + column;
      } else {
        assert CellPlaced(c, ps);
        var p :| p in ps && p.x <= c.0 < p.x + p.width && p.y <= c.1 < p.y + p.height;
        assert p in ps + column;
      }
    }
  }

  lemma ColumnDisjoint(x: int, runs: seq<Run>, column: seq<Placement>, ps: seq<Placement>,
                       done: set<int>, tileset: int, id: int, layer: int)
    requires x !in done
    requires Separated(runs)
    requires |column| == |runs|
    requires forall i :: 0 <= i < |runs| ==> column[i] == Placement(tileset, id, layer, x, runs[i].start, 1, runs[i].height)
    requires forall p :: p in ps ==> p.x in done && p.width == 1
    requires Disjoint(ps)
    ensures forall p :: p in ps + column ==> p.x in done + {x}
    ensures Disjoint(ps + column)
  {
    var all := ps + column;
    forall i, j | 0 <= i < j < |all| ensures !Overlap(all[i], all[j]) {
      if j < |ps| {
        assert all[i] == ps[i] && all[j] == ps[j];
      } else if i < |ps| {
        assert all[i] in ps;
        assert all[j] == column[j - |ps|];
      } else {
        assert all[i] == column[i - |ps|] && all[j] == column[j - |ps|];
      }
    }
  }
}
