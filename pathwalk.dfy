/** The stroke walker of the painting engine (`_build_valid_path` in
    quickpaint/core/engine.py): from the end of the stroke it steps one
    cardinal cell at a time toward the mouse, never onto a cell of the
    stroke, a slope footprint or the cell it just left, and "dampening"
    keeps small wiggles off the stroke by locking the walk to one axis.
    The engine class that owns the session fields is in module Engine. */
module PathWalk {
  import opened Common
  import opened Grid
  import opened SlopeShapes
  import opened Outline

  datatype Axis = Horizontal | Vertical

  function Flip(a: Axis): Axis {
    if a == Horizontal then Vertical else Horizontal
  }

  /** Manhattan distance. */
  function Dist(a: Pos, b: Pos): nat {
    Abs(a.0 - b.0) + Abs(a.1 - b.1)
  }

  /** The axis the mouse points along: horizontal when |dx| >= |dy|. */
  function MouseAxis(dx: int, dy: int): (a: Axis)
    ensures a == Horizontal <==> Abs(dx) >= Abs(dy)
  {
    if Abs(dx) >= Abs(dy) then Horizontal else Vertical
  }

  /** A unit step. */
  datatype Move = Move(dx: int, dy: int)

  function AxisOf(m: Move): Axis {
    if m.dy == 0 then Horizontal else Vertical
  }

  function Apply(p: Pos, m: Move): Pos {
    (p.0 + m.dx, p.1 + m.dy)
  }

  /** The moves the walk tries from a cell whose offset to the target is
      (dx, dy): the step toward the target on each axis that still has
      distance, the mouse's axis first; only the locked axis when
      dampening has locked one. */
  function Candidates(lock: Option<Axis>, mouse: Axis, dx: int, dy: int): (c: seq<Move>)
    ensures |c| <= 2
    ensures forall i :: 0 <= i < |c| ==>
      (c[i] == Move(Sign(dx), 0) && dx != 0) || (c[i] == Move(0, Sign(dy)) && dy != 0)
  {
    var h := if dx != 0 then [Move(Sign(dx), 0)] else [];
    var v := if dy != 0 then [Move(0, Sign(dy))] else [];
    match lock
    case Some(Horizontal) => h
    case Some(Vertical) => v
    case None => if mouse == Horizontal then h + v else v + h
  }

  /** A locked walk tries only the locked axis, when it still has
      distance; an unlocked one tries every axis with distance, the
      mouse's first. */
  lemma CandidatesFacts(lock: Option<Axis>, mouse: Axis, dx: int, dy: int)
    ensures var c := Candidates(lock, mouse, dx, dy);
      (lock.Some? ==> |c| <= 1 && forall i :: 0 <= i < |c| ==> AxisOf(c[i]) == lock.value)
      && (lock == Some(Horizontal) ==> (|c| == 1 <==> dx != 0))
      && (lock == Some(Vertical) ==> (|c| == 1 <==> dy != 0))
      && (lock.None? ==> |c| == (if dx != 0 then 1 else 0) + (if dy != 0 then 1 else 0))
      && (lock.None? && mouse == Horizontal && dx != 0 ==> c[0] == Move(Sign(dx), 0))
      && (lock.None? && mouse == Vertical && dy != 0 ==> c[0] == Move(0, Sign(dy)))
  {
  }

  /** A candidate step leads toward the target: one cell, and one cell
      closer. */
  lemma CandidateApproaches(lock: Option<Axis>, mouse: Axis, c: Pos, target: Pos, i: nat)
    requires i < |Candidates(lock, mouse, target.0 - c.0, target.1 - c.1)|
    ensures var n := Apply(c, Candidates(lock, mouse, target.0 - c.0, target.1 - c.1)[i]);
      Dist(c, n) == 1 && Dist(n, target) + 1 == Dist(c, target)
  {
  }

  /** The step is refused: onto the stroke, into a slope footprint, or back
      onto the cell just left. */
  predicate Refused(n: Pos, occupied: set<Pos>, blocked: set<Pos>, prev: Option<Pos>) {
    n in occupied || n in blocked || prev == Some(n)
  }

  /** The walk stops at `c` short of the target only when every candidate
      step from there is refused (which includes having none). */
  predicate Stuck(c: Pos, target: Pos, occupied: set<Pos>, blocked: set<Pos>, prev: Option<Pos>,
                  lock: Option<Axis>, mouse: Axis)
  {
    var cands := Candidates(lock, mouse, target.0 - c.0, target.1 - c.1);
    forall i :: 0 <= i < |cands| ==> Refused(Apply(c, cands[i]), occupied, blocked, prev)
  }

  /** The first candidate from index `k` on that is not refused, or
      `|cands|` when there is none. */
  function FirstFree(c: Pos, cands: seq<Move>, occupied: set<Pos>, blocked: set<Pos>, prev: Option<Pos>, k: nat): (r: nat)
    ensures k <= |cands| ==> k <= r
    ensures r <= |cands| || (k > |cands| && r == |cands|)
    ensures forall i :: k <= i < r && i < |cands| ==> Refused(Apply(c, cands[i]), occupied, blocked, prev)
    ensures r < |cands| ==> !Refused(Apply(c, cands[r]), occupied, blocked, prev)
    decreases |cands| - k
  {
    if k >= |cands| then |cands|
    else if !Refused(Apply(c, cands[k]), occupied, blocked, prev) then k
    else FirstFree(c, cands, occupied, blocked, prev, k + 1)
  }

  /** The cells `_build_valid_path`'s loop accepts from `c` (entered from
      `prev`) toward `target`, with `occupied` the cells of the stroke so
      far: none once the target is reached, none when every candidate is
      refused, and otherwise the first acceptable candidate and the walk on
      from there. */
  function WalkFrom(c: Pos, prev: Option<Pos>, target: Pos, occupied: set<Pos>, blocked: set<Pos>,
                    lock: Option<Axis>, mouse: Axis): seq<Pos>
    decreases Dist(c, target)
  {
    if c == target then []
    else
      var cands := Candidates(lock, mouse, target.0 - c.0, target.1 - c.1);
      var j := FirstFree(c, cands, occupied, blocked, prev, 0);
      if j == |cands| then []
      else
        CandidateApproaches(lock, mouse, c, target, j);
        var n := Apply(c, cands[j]);
        [n] + WalkFrom(n, Some(c), target, occupied + {n}, blocked, lock, mouse)
  }

  /** The last cell of a walk from `c`. */
  function Last(c: Pos, w: seq<Pos>): Pos {
    if w == [] then c else w[|w| - 1]
  }

  /** The cell the walk entered its last cell from. */
  function PrevAt(c: Pos, prev: Option<Pos>, w: seq<Pos>): Option<Pos> {
    if w == [] then prev else if |w| == 1 then Some(c) else Some(w[|w| - 2])
  }

  function Elements(s: seq<Pos>): set<Pos> {
    set p | p in s
  }

  lemma ElementsCons(n: Pos, w: seq<Pos>)
    ensures Elements([n] + w) == {n} + Elements(w)
  {
  }

  /** Each cell of `path` is a cardinal neighbour of the one before it
      (of `c` for the first) and one step closer to `target`. */
  ghost predicate Approaches(c: Pos, target: Pos, path: seq<Pos>)
    decreases |path|
  {
    path == []
    || (Dist(c, path[0]) == 1 && Dist(path[0], target) + 1 == Dist(c, target)
        && Approaches(path[0], target, path[1..]))
  }

  /** What `Approaches` means cell by cell: the path starts next to `c`,
      each cell is next to the one before, the i-th cell is i + 1 steps
      closer to the target, and so no cell repeats, none is `c` and there
      are at most as many cells as the distance. */
  lemma {:induction false} ApproachesMeaning(c: Pos, target: Pos, path: seq<Pos>)
    requires Approaches(c, target, path)
    ensures |path| > 0 ==> Dist(c, path[0]) == 1
    ensures forall i, j :: 0 <= i < j < |path| && j == i + 1 ==> Dist(path[i], path[j]) == 1
    ensures forall i :: 0 <= i < |path| ==> Dist(path[i], target) + i + 1 == Dist(c, target)
    ensures |path| <= Dist(c, target)
    ensures Distinct(path) && c !in path
    decreases |path|
  {
    if path != [] {
      var tail := path[1..];
      ApproachesMeaning(path[0], target, tail);
      assert forall i :: 0 <= i < |tail| ==> path[i + 1] == tail[i];
      forall i, j | 0 <= i < j < |path| && j == i + 1 ensures Dist(path[i], path[j]) == 1 {
        if i > 0 {
          assert path[i] == tail[i - 1] && path[j] == tail[j - 1];
        }
      }
      forall i | 0 <= i < |path| ensures Dist(path[i], target) + i + 1 == Dist(c, target) {
        if i > 0 {
          assert path[i] == tail[i - 1];
        }
      }
    }
  }

  /** The walk approaches the target one cardinal step at a time. */
  lemma {:induction false} WalkApproaches(c: Pos, prev: Option<Pos>, target: Pos, occupied: set<Pos>,
                                          blocked: set<Pos>, lock: Option<Axis>, mouse: Axis)
    ensures Approaches(c, target, WalkFrom(c, prev, target, occupied, blocked, lock, mouse))
    decreases Dist(c, target)
  {
    var w := WalkFrom(c, prev, target, occupied, blocked, lock, mouse);
    if w != [] {
      var n := WalkCons(c, prev, target, occupied, blocked, lock, mouse);
      WalkApproaches(n, Some(c), target, occupied + {n}, blocked, lock, mouse);
      assert w[1..] == WalkFrom(n, Some(c), target, occupied + {n}, blocked, lock, mouse);
    }
  }

  /** The walk never enters an occupied cell or a blocked one, and its
      first cell is not the cell it came from. */
  lemma {:induction false} WalkAvoids(c: Pos, prev: Option<Pos>, target: Pos, occupied: set<Pos>,
                                      blocked: set<Pos>, lock: Option<Axis>, mouse: Axis)
    ensures var w := WalkFrom(c, prev, target, occupied, blocked, lock, mouse);
      (forall x :: x in w ==> x !in occupied && x !in blocked)
      && (w != [] ==> prev != Some(w[0]))
    decreases Dist(c, target)
  {
    var w := WalkFrom(c, prev, target, occupied, blocked, lock, mouse);
    if w != [] {
      var n := WalkCons(c, prev, target, occupied, blocked, lock, mouse);
      WalkAvoids(n, Some(c), target, occupied + {n}, blocked, lock, mouse);
      assert w == [n] + WalkFrom(n, Some(c), target, occupied + {n}, blocked, lock, mouse);
    }
  }

  /** Under a horizontal lock the walk stays on its row, under a vertical
      lock on its column. */
  lemma {:induction false} WalkKeepsAxis(c: Pos, prev: Option<Pos>, target: Pos, occupied: set<Pos>,
                                         blocked: set<Pos>, lock: Option<Axis>, mouse: Axis)
    ensures var w := WalkFrom(c, prev, target, occupied, blocked, lock, mouse);
      (lock == Some(Horizontal) ==> forall x :: x in w ==> x.1 == c.1)
      && (lock == Some(Vertical) ==> forall x :: x in w ==> x.0 == c.0)
    decreases Dist(c, target)
  {
    var w := WalkFrom(c, prev, target, occupied, blocked, lock, mouse);
    if w != [] {
      var n := WalkCons(c, prev, target, occupied, blocked, lock, mouse);
      WalkKeepsAxis(n, Some(c), target, occupied + {n}, blocked, lock, mouse);
      assert w == [n] + WalkFrom(n, Some(c), target, occupied + {n}, blocked, lock, mouse);
    }
  }

  /** The walk ends on the target, or where every candidate step is
      refused. */
  lemma {:induction false} WalkEnds(c: Pos, prev: Option<Pos>, target: Pos, occupied: set<Pos>,
                                    blocked: set<Pos>, lock: Option<Axis>, mouse: Axis)
    ensures var w := WalkFrom(c, prev, target, occupied, blocked, lock, mouse);
      Last(c, w) == target
      || Stuck(Last(c, w), target, occupied + Elements(w), blocked, PrevAt(c, prev, w), lock, mouse)
    decreases Dist(c, target)
  {
    var w := WalkFrom(c, prev, target, occupied, blocked, lock, mouse);
    if w != [] {
      var n := WalkCons(c, prev, target, occupied, blocked, lock, mouse);
      var w' := WalkFrom(n, Some(c), target, occupied + {n}, blocked, lock, mouse);
      WalkEnds(n, Some(c), target, occupied + {n}, blocked, lock, mouse);
      EndCons(c, prev, occupied, n, w');
    } else {
      WalkEmpty(c, prev, target, occupied, blocked, lock, mouse);
      assert occupied + Elements(w) == occupied;
    }
  }

  /** A walk stops short of the target only where every candidate is
      refused. */
  lemma WalkEmpty(c: Pos, prev: Option<Pos>, target: Pos, occupied: set<Pos>, blocked: set<Pos>,
                  lock: Option<Axis>, mouse: Axis)
    requires WalkFrom(c, prev, target, occupied, blocked, lock, mouse) == []
    ensures c == target || Stuck(c, target, occupied, blocked, prev, lock, mouse)
  {
  }

  /** A walk that moves is its first cell `n`, a neighbour one step
      closer that no check refuses and that keeps to a locked axis,
      followed by the walk on from `n`. */
  lemma WalkCons(c: Pos, prev: Option<Pos>, target: Pos, occupied: set<Pos>, blocked: set<Pos>,
                 lock: Option<Axis>, mouse: Axis) returns (n: Pos)
    requires WalkFrom(c, prev, target, occupied, blocked, lock, mouse) != []
    ensures WalkFrom(c, prev, target, occupied, blocked, lock, mouse)
         == [n] + WalkFrom(n, Some(c), target, occupied + {n}, blocked, lock, mouse)
    ensures Dist(c, n) == 1 && Dist(n, target) + 1 == Dist(c, target)
    ensures !Refused(n, occupied, blocked, prev)
    ensures lock == Some(Horizontal) ==> n.1 == c.1
    ensures lock == Some(Vertical) ==> n.0 == c.0
  {
    var cands := Candidates(lock, mouse, target.0 - c.0, target.1 - c.1);
    var j := FirstFree(c, cands, occupied, blocked, prev, 0);
    CandidateApproaches(lock, mouse, c, target, j);
    CandidatesFacts(lock, mouse, target.0 - c.0, target.1 - c.1);
    n := Apply(c, cands[j]);
  }

  /** Where a walk with first cell `n` ends, and with what behind it, is
      where the rest of it ends. */
  lemma EndCons(c: Pos, prev: Option<Pos>, occupied: set<Pos>, n: Pos, w': seq<Pos>)
    ensures Last(c, [n] + w') == Last(n, w')
    ensures PrevAt(c, prev, [n] + w') == PrevAt(n, Some(c), w')
    ensures occupied + Elements([n] + w') == occupied + {n} + Elements(w')
  {
    ElementsCons(n, w');
  }

  /** The run tracking of `last_move_direction` and
      `consecutive_direction_count` after one accepted step. */
  function Track(last: Option<Axis>, count: nat, a: Axis): (r: (Option<Axis>, nat)) {
    if last.None? then (Some(a), 1)
    else if last == Some(a) then (last, count + 1)
    else (Some(a), 1)
  }

  /** The axes of the steps of `path` from `c`. */
  function StepAxes(c: Pos, path: seq<Pos>): (r: seq<Axis>)
    ensures |r| == |path|
    decreases |path|
  {
    if path == [] then []
    else [if path[0].1 == c.1 then Horizontal else Vertical] + StepAxes(path[0], path[1..])
  }

  function TrackAll(last: Option<Axis>, count: nat, axes: seq<Axis>): (r: (Option<Axis>, nat))
    decreases |axes|
  {
    if axes == [] then (last, count)
    else
      var t := Track(last, count, axes[0]);
      TrackAll(t.0, t.1, axes[1..])
  }

  /** Tracking a step, then the rest. */
  lemma TrackCons(last: Option<Axis>, count: nat, a: Axis, axes: seq<Axis>)
    ensures TrackAll(last, count, [a] + axes) == TrackAll(Track(last, count, a).0, Track(last, count, a).1, axes)
  {
    assert ([a] + axes)[1..] == axes;
  }

  /** After at least one step the tracked direction is the last step's
      axis and the count is at least 1; a walk that keeps to the tracked
      direction adds its length to the count. */
  lemma {:induction false} TrackAllFacts(last: Option<Axis>, count: nat, axes: seq<Axis>)
    requires axes != []
    ensures TrackAll(last, count, axes).0 == Some(axes[|axes| - 1])
    ensures TrackAll(last, count, axes).1 >= 1
    ensures last.Some? && (forall i :: 0 <= i < |axes| ==> Some(axes[i]) == last) ==>
      TrackAll(last, count, axes).1 == count + |axes|
    decreases |axes|
  {
    var t := Track(last, count, axes[0]);
    if |axes| > 1 {
      TrackAllFacts(t.0, t.1, axes[1..]);
      assert axes[1..][|axes| - 2] == axes[|axes| - 1];
      if last.Some? && (forall i :: 0 <= i < |axes| ==> Some(axes[i]) == last) {
        assert forall i :: 0 <= i < |axes| - 1 ==> Some(axes[1..][i]) == t.0 by {
          forall i | 0 <= i < |axes| - 1 ensures Some(axes[1..][i]) == t.0 {
            assert axes[1..][i] == axes[i + 1];
          }
        }
      }
    }
  }

  /** One accepted step: the walk from `c` is the accepted cell `n`
      followed by the walk from `n`, which is closer to the target. */
  lemma WalkStep(c: Pos, prev: Option<Pos>, target: Pos, occupied: set<Pos>, blocked: set<Pos>,
                 lock: Option<Axis>, mouse: Axis, j: nat) returns (rest: seq<Pos>)
    requires c != target
    requires var cands := Candidates(lock, mouse, target.0 - c.0, target.1 - c.1);
      j == FirstFree(c, cands, occupied, blocked, prev, 0) && j < |cands|
    ensures var m := Candidates(lock, mouse, target.0 - c.0, target.1 - c.1)[j];
      var n := Apply(c, m);
      && rest == WalkFrom(n, Some(c), target, occupied + {n}, blocked, lock, mouse)
      && WalkFrom(c, prev, target, occupied, blocked, lock, mouse) == [n] + rest
      && Dist(n, target) < Dist(c, target)
      && StepAxes(c, [n] + rest) == [AxisOf(m)] + StepAxes(n, rest)
  {
    var cands := Candidates(lock, mouse, target.0 - c.0, target.1 - c.1);
    CandidateApproaches(lock, mouse, c, target, j);
    var n := Apply(c, cands[j]);
    rest := WalkFrom(n, Some(c), target, occupied + {n}, blocked, lock, mouse);
    assert ([n] + rest)[1..] == rest;
  }

  lemma AppendAssoc(a: seq<Pos>, b: seq<Pos>, c: seq<Pos>)
    ensures a + (b + c) == (a + b) + c
  {
  }

  /** The candidate loop of one walk step: the index of the first
      candidate that is not refused, or `|cands|` when all are. */
  method FirstAccepted(c: Pos, cands: seq<Move>, occupied: set<Pos>, blocked: set<Pos>, prev: Option<Pos>)
    returns (j: nat)
    ensures j == FirstFree(c, cands, occupied, blocked, prev, 0)
  {
    j := 0;
    while j < |cands| && Refused(Apply(c, cands[j]), occupied, blocked, prev)
      invariant j <= |cands|
      invariant FirstFree(c, cands, occupied, blocked, prev, j) == FirstFree(c, cands, occupied, blocked, prev, 0)
    {
      j := j + 1;
    }
  }

  /** `_build_valid_path`'s walk loop: from `start` (the stroke's end,
      entered from `prevTile`) toward `target`, with `visited` the cells
      of the stroke, `blocked` the slope footprints and `lock` the axis
      dampening locked. Returns the accepted cells and the updated run
      tracking. */
  method Walk(start: Pos, prevTile: Option<Pos>, target: Pos, visited: set<Pos>, blocked: set<Pos>,
              lock: Option<Axis>, mouse: Axis, lastMove: Option<Axis>, count: nat)
    returns (result: seq<Pos>, lastMove': Option<Axis>, count': nat)
    ensures result == WalkFrom(start, prevTile, target, visited, blocked, lock, mouse)
    ensures (lastMove', count') == TrackAll(lastMove, count, StepAxes(start, result))
  {
    var current := start;
    var prev := prevTile;
    var pathSet := visited;
    result := [];
    lastMove', count' := lastMove, count;
    ghost var whole := WalkFrom(start, prevTile, target, visited, blocked, lock, mouse);
    ghost var rem := whole;
    while current != target
      invariant rem == WalkFrom(current, prev, target, pathSet, blocked, lock, mouse)
      invariant result + rem == whole
      invariant TrackAll(lastMove', count', StepAxes(current, rem)) == TrackAll(lastMove, count, StepAxes(start, whole))
      invariant result == [] ==> current == start
      invariant result != [] ==> current == result[|result| - 1]
      decreases Dist(current, target)
    {
      var step := NextStep(current, prev, target, pathSet, blocked, lock, mouse);
      if step.None? {
        break;
      }
      var (next, axis) := step.value;
      ghost var rest := rem[1..];
      AppendAssoc(result, [next], rest);
      TrackCons(lastMove', count', axis, StepAxes(next, rest));
      var tracked := Track(lastMove', count', axis);
      lastMove', count' := tracked.0, tracked.1;
      result := result + [next];
      pathSet := pathSet + {next};
      prev := Some(current);
      current := next;
      rem := rest;
    }
    assert result == whole;
  }

  /** One iteration of the walk loop: the first candidate step the checks
      accept, with its axis, or `None` when every candidate is refused. */
  method NextStep(c: Pos, prev: Option<Pos>, target: Pos, occupied: set<Pos>, blocked: set<Pos>,
                  lock: Option<Axis>, mouse: Axis)
    returns (step: Option<(Pos, Axis)>)
    requires c != target
    ensures var w := WalkFrom(c, prev, target, occupied, blocked, lock, mouse);
      (step.None? <==> w == [])
      && (step.Some? ==>
            var n := step.value.0;
            w == [n] + WalkFrom(n, Some(c), target, occupied + {n}, blocked, lock, mouse)
            && Dist(n, target) < Dist(c, target)
            && StepAxes(c, w) == [step.value.1] + StepAxes(n, w[1..]))
  {
    var dx, dy := target.0 - c.0, target.1 - c.1;
    var cands := Candidates(lock, mouse, dx, dy);
    var j := FirstAccepted(c, cands, occupied, blocked, prev);
    if j == |cands| {
      return None;
    }
    var rest := WalkStep(c, prev, target, occupied, blocked, lock, mouse, j);
    step := Some((Apply(c, cands[j]), AxisOf(cands[j])));
  }

  /** The walk's guarantees, as `_build_valid_path` promises them: each
      cell is a cardinal neighbour of the one before (of the stroke's end
      for the first) and one step closer to the target, so there are at
      most as many cells as the distance and none repeats; no cell is on
      the stroke, in a slope footprint or the cell just left; a locked
      walk stays on its row or column; and the walk ends on the target or
      where every candidate step is refused. */
  lemma WalkFacts(start: Pos, prevTile: Option<Pos>, target: Pos, visited: set<Pos>, blocked: set<Pos>,
                  lock: Option<Axis>, mouse: Axis)
    ensures var w := WalkFrom(start, prevTile, target, visited, blocked, lock, mouse);
      (start == target ==> w == [])
      && |w| <= Dist(start, target)
      && (|w| > 0 ==> Dist(start, w[0]) == 1)
      && (forall i, j :: 0 <= i < j < |w| && j == i + 1 ==> Dist(w[i], w[j]) == 1)
      && (forall i :: 0 <= i < |w| ==> Dist(w[i], target) + i + 1 == Dist(start, target))
      && Distinct(w) && start !in w
      && (forall x :: x in w ==> x !in visited && x !in blocked)
      && (w != [] ==> prevTile != Some(w[0]))
      && (lock == Some(Horizontal) ==> forall x :: x in w ==> x.1 == start.1)
      && (lock == Some(Vertical) ==> forall x :: x in w ==> x.0 == start.0)
      && (Last(start, w) == target
          || Stuck(Last(start, w), target, visited + Elements(w), blocked, PrevAt(start, prevTile, w), lock, mouse))
  {
    WalkApproaches(start, prevTile, target, visited, blocked, lock, mouse);
    ApproachesMeaning(start, target, WalkFrom(start, prevTile, target, visited, blocked, lock, mouse));
    WalkAvoids(start, prevTile, target, visited, blocked, lock, mouse);
    WalkKeepsAxis(start, prevTile, target, visited, blocked, lock, mouse);
    WalkEnds(start, prevTile, target, visited, blocked, lock, mouse);
  }

  // ----- dampening -----

  /** The dampening state of the session (`primary_axis`,
      `last_committed_pos`, `perpendicular_deviation`) after the check at
      the start of a walk, and the axis the walk is locked to. */
  datatype Dampening = Dampening(primary: Option<Axis>, lastCommitted: Option<Pos>, deviation: int, lock: Option<Axis>)

  /** How far `target` lies off the line through `base` along `axis`. */
  function Perpendicular(axis: Axis, base: Pos, target: Pos): nat {
    if axis == Horizontal then Abs(target.1 - base.1) else Abs(target.0 - base.0)
  }

  /** The dampening check: with a positive factor the first walk fixes the
      primary axis to the mouse's axis at the stroke end; then a target
      less than `factor` off the primary line locks the walk to the primary
      axis, and any other target turns the primary axis and restarts the
      line at the stroke end. */
  function Dampen(factor: int, primary: Option<Axis>, lastCommitted: Option<Pos>, deviation: int,
                  current: Pos, target: Pos): Dampening
  {
    var mouse := MouseAxis(target.0 - current.0, target.1 - current.1);
    var first := primary.None? && factor > 0;
    var p := if first then Some(mouse) else primary;
    var lc := if first then Some(current) else lastCommitted;
    var dev := if first then 0 else deviation;
    if factor > 0 && p.Some? && lc.Some? then
      if Perpendicular(p.value, lc.value, target) < factor then Dampening(p, lc, dev, p)
      else Dampening(Some(Flip(p.value)), Some(current), 0, None)
    else Dampening(p, lc, dev, None)
  }

  /** No dampening with factor 0; otherwise the primary axis is set, a lock
      is always to the primary axis and means the target is within the
      factor of the primary line, which is then kept; and without a lock
      the axis turns and the line restarts at the stroke end. */
  lemma DampenFacts(factor: int, primary: Option<Axis>, lastCommitted: Option<Pos>, deviation: int,
                    current: Pos, target: Pos)
    ensures var r := Dampen(factor, primary, lastCommitted, deviation, current, target);
      (factor <= 0 ==> r == Dampening(primary, lastCommitted, deviation, None))
      && (factor > 0 ==> r.primary.Some?)
      && (r.lock.Some? ==>
            factor > 0 && r.lock == r.primary && r.lastCommitted.Some?
            && Perpendicular(r.primary.value, r.lastCommitted.value, target) < factor
            && (primary.Some? ==> r.primary == primary && r.lastCommitted == lastCommitted && r.deviation == deviation))
      && (factor > 0 && r.lock.None? && (primary.Some? ==> lastCommitted.Some?) ==>
            var axis := if primary.Some? then primary.value else MouseAxis(target.0 - current.0, target.1 - current.1);
            var base := if primary.Some? then lastCommitted.value else current;
            Perpendicular(axis, base, target) >= factor
            && r == Dampening(Some(Flip(axis)), Some(current), 0, None))
  {
  }

  // ----- the slope-exit restriction -----

  /** The restriction after leaving slope mode: after a ground slope the
      walk must go right, after a ceiling slope left. Returns whether the
      walk may proceed and the restriction left in place: a refused target
      keeps it, and the first target that passes clears it. */
  function ExitGate(exit: Option<Heading>, dx: int): (r: (bool, Option<Heading>))
    ensures !r.0 ==> r.1 == exit && exit.Some?
    ensures r.0 ==> r.1.None?
    ensures exit == Some(LeftToRight) ==> (r.0 <==> dx > 0)
    ensures exit == Some(RightToLeft) ==> (r.0 <==> dx < 0)
    ensures exit.None? ==> r.0
  {
    if exit == Some(LeftToRight) && dx <= 0 then (false, exit)
    else if exit == Some(RightToLeft) && dx >= 0 then (false, exit)
    else (true, None)
  }

  // ----- slope footprints -----

  /** `c` lies in the footprint of one of `segs`. */
  predicate InAnyFootprint(c: Pos, segs: seq<SlopeSegment>) {
    exists k :: 0 <= k < |segs| && InFootprint(c, segs[k].shape, segs[k].origin)
  }

  /** The part of a width-`w` footprint at `o` filled so far: the rows
      above `row`, and the first `col` cells of row `row`. */
  predicate FilledSoFar(c: Pos, o: Pos, w: int, row: int, col: int) {
    (o.0 <= c.0 < o.0 + w && o.1 <= c.1 < o.1 + row) || (c.1 == o.1 + row && o.0 <= c.0 < o.0 + col)
  }

  /** The cells `_build_valid_path` keeps the walk out of: the full
      footprint of every slope in `segs` (the committed slopes, and the
      preview in slope mode), sized by `SlopeDimensions`. */
  method SlopeBlocked(segs: seq<SlopeSegment>) returns (blocked: set<Pos>)
    ensures forall c :: c in blocked <==> InAnyFootprint(c, segs)
  {
    blocked := {};
    var k := 0;
    while k < |segs|
      invariant 0 <= k <= |segs|
      invariant forall c :: c in blocked <==> InAnyFootprint(c, segs[..k])
    {
      var seg := segs[k];
      var (width, height) := SlopeDimensions(Name(seg.shape));
      DimensionsOfName(seg.shape);
      var o := seg.origin;
      var dy := 0;
      while dy < height
        invariant 0 <= dy <= height
        invariant forall c :: c in blocked <==> InAnyFootprint(c, segs[..k]) || FilledSoFar(c, o, width, dy, 0)
      {
        var dx := 0;
        while dx < width
          invariant 0 <= dx <= width
          invariant forall c :: c in blocked <==> InAnyFootprint(c, segs[..k]) || FilledSoFar(c, o, width, dy, dx)
        {
          blocked := blocked + {(o.0 + dx, o.1 + dy)};
          dx := dx + 1;
        }
        dy := dy + 1;
      }
      forall c ensures InAnyFootprint(c, segs[..k + 1]) <==> InAnyFootprint(c, segs[..k]) || InFootprint(c, seg.shape, o) {
        if InAnyFootprint(c, segs[..k + 1]) && !InFootprint(c, seg.shape, o) {
          var i :| 0 <= i < k + 1 && InFootprint(c, segs[..k + 1][i].shape, segs[..k + 1][i].origin);
          assert i < k && segs[..k][i] == segs[..k + 1][i];
        }
        if InAnyFootprint(c, segs[..k]) {
          var i :| 0 <= i < k && InFootprint(c, segs[..k][i].shape, segs[..k][i].origin);
          assert segs[..k + 1][i] == segs[..k][i];
        }
        if InFootprint(c, seg.shape, o) {
          assert segs[..k + 1][k] == seg;
        }
      }
      k := k + 1;
    }
    assert segs[..k] == segs;
  }
}
