/** The painting engine's stroke builder (`PaintingSession` and
    `PaintingEngine` in quickpaint/core/engine.py): the session state a
    stroke accumulates, the path builder that extends the stroke toward the
    mouse, the slope-mode state machine and the outline refresh. Each
    state-changing method is tied to a function on the session's value
    (`SessionData`), and the lemmas at the end state what those functions
    promise. */
module Engine {
  import opened Common
  import opened Tiles
  import opened Grid
  import opened SlopeShapes
  import opened Outline
  import opened SlopeMode
  import PathWalk
  import Modes
  import Brush
  import Merge
  import Finalize

  datatype PaintingState = Idle | PaintingImmediate | PaintingDeferred

  datatype PaintingMode = Immediate | Deferred

  // ----- the session, grouped as the fields of `PaintingSession` are -----

  /** The stroke's positions and the tiles it works over. */
  datatype StrokeState = StrokeState(
    startPos: Option<Pos>,
    currentPos: Option<Pos>,
    lastPos: Option<Pos>,
    path: seq<Pos>,
    pendingPlacements: seq<Placement>,
    existingTiles: map<TileKey, int>,
    placedTiles: set<TileKey>)

  /** The direction fixed by the stroke's first movement. */
  datatype DirectionState = DirectionState(
    initial: Option<Heading>,
    painting: Modes.PaintingDirection,
    locked: bool)

  /** The run tracking and the dampening of the path builder. */
  datatype DampeningState = DampeningState(
    consecutiveCount: nat,
    lastMove: Option<PathWalk.Axis>,
    pendingTurnCount: int,
    primaryAxis: Option<PathWalk.Axis>,
    lastCommitted: Option<Pos>,
    deviation: int)

  /** Slope mode: the committed slopes, the anchor and the preview. */
  datatype SlopeState = SlopeState(
    committed: seq<SlopeSegment>,
    uncommittedStartIdx: int,
    mode: bool,
    anchor: Option<Pos>,
    preview: Option<SlopeSegment>,
    pathLength: int,
    exitDirection: Option<Heading>,
    currentDirection: Option<Heading>,
    innerCorner: Option<Terrain>)

  /** Every field of `PaintingSession`, as one value. */
  datatype SessionData = SessionData(
    stroke: StrokeState,
    direction: DirectionState,
    dampening: DampeningState,
    slopes: SlopeState,
    outlinePositions: seq<Pos>,
    outlineTileTypes: map<Pos, OutlineType>)

  /** A session after `reset`: everything back to its default except the
      existing tiles, which persist across strokes. */
  function Cleared(existing: map<TileKey, int>): (d: SessionData)
    ensures d.stroke.existingTiles == existing
    ensures d.stroke.path == [] && d.outlinePositions == [] && d.slopes.committed == []
    ensures !d.slopes.mode && d.slopes.anchor.None? && d.slopes.preview.None? && d.slopes.exitDirection.None?
    ensures !d.direction.locked && d.dampening.primaryAxis.None?
  {
    SessionData(StrokeState(None, None, None, [], [], existing, {}),
                DirectionState(None, Modes.Auto, false),
                DampeningState(0, None, 0, None, None, 0),
                SlopeState([], 0, false, None, None, 0, None, None, None),
                [], map[])
  }

  /** The session `start_painting` opens at `pos` over the object database
      `db`. */
  function Started(db: map<TileKey, int>, pos: Pos): SessionData {
    Cleared(db).(stroke := StrokeState(Some(pos), Some(pos), Some(pos), [pos], [], db, {}))
  }

  /** The last cell of a stroke. */
  function End(p: seq<Pos>): Pos
    requires p != []
  {
    p[|p| - 1]
  }

  // ----- the effects of the engine's operations on the session -----

  /** The slopes `_update_outline` and `_build_valid_path` take into
      account: the committed ones, then the preview while in slope mode. */
  function Segments(d: SessionData): seq<SlopeSegment> {
    d.slopes.committed + (if d.slopes.mode && d.slopes.preview.Some? then [d.slopes.preview.value] else [])
  }

  /** `_update_outline`: nothing without a start position or a stroke;
      otherwise the outline and its types are rebuilt from the stroke, the
      slopes and the initial direction. */
  function WithOutline(d: SessionData): SessionData {
    if d.stroke.startPos.None? || d.stroke.path == [] then d
    else
      var st := OutlineOf(d.stroke.path, Segments(d), d.direction.initial);
      d.(outlinePositions := st.outline, outlineTileTypes := st.types)
  }

  /** `slope_current_direction or initial_direction`. */
  function SlopeDirection(d: SessionData): Option<Heading> {
    if d.slopes.currentDirection.Some? then d.slopes.currentDirection else d.direction.initial
  }

  /** `_suggest_default_slope`: with an anchor, the preview becomes the
      default suggestion when there is one and is left alone otherwise. */
  function WithSuggestion(d: SessionData, enabled: set<string>): SessionData {
    if d.slopes.anchor.None? then d
    else
      match DefaultSuggestion(d.slopes.anchor.value, SlopeDirection(d), EnabledShapes(enabled))
      case None => d
      case Some(s) => d.(slopes := d.slopes.(preview := Some(s)))
  }

  /** The slope state on entering slope mode, before the suggestion: with
      a stroke, the anchor is its last cell, its length is recorded and the
      direction at the anchor is taken from its last move. */
  function EntrySlopes(d: SessionData): SlopeState {
    var p := d.stroke.path;
    var s := if p == [] then d.slopes
             else d.slopes.(anchor := Some(End(p)), pathLength := |p|,
                            currentDirection := CurrentDirection(p, d.direction.initial));
    s.(mode := true, preview := None)
  }

  /** Entering slope mode: the entry state, a default slope suggested, the
      outline refreshed. */
  function Entered(d: SessionData, enabled: set<string>): SessionData {
    WithOutline(WithSuggestion(d.(slopes := EntrySlopes(d)), enabled))
  }

  /** Leaving slope mode before the refresh: the exit restriction comes
      from the last committed slope; with an anchor the stroke is cut back
      to its length on entry and the anchor appended; slope mode, anchor
      and preview are cleared. */
  function ExitState(d: SessionData): SessionData {
    var s := d.slopes;
    var path := if s.anchor.Some? then Take(d.stroke.path, s.pathLength) + [s.anchor.value] else d.stroke.path;
    d.(stroke := d.stroke.(path := path),
       slopes := s.(exitDirection := ExitDirection(s.committed), mode := false, anchor := None, preview := None))
  }

  /** `toggle_slope_mode`: the new mode and the new session. */
  function Toggled(d: SessionData, enabled: set<string>): (bool, SessionData) {
    if !d.slopes.mode then (true, Entered(d, enabled)) else (false, WithOutline(ExitState(d)))
  }

  /** `update_slope_preview` for a mouse position: nothing outside slope
      mode or without an anchor; otherwise the inner corner and preview
      `PreviewFor` computes, then the outline refresh. */
  function Previewed(d: SessionData, mouse: Pos, enabled: set<string>, angle: (nat, nat) -> AngleClass): SessionData {
    if !d.slopes.mode || d.slopes.anchor.None? then d
    else
      var u := PreviewFor(d.slopes.anchor.value, mouse, SlopeDirection(d), EnabledShapes(enabled), angle);
      var corner := if u.innerCorner.Some? then u.innerCorner.value else d.slopes.innerCorner;
      WithOutline(d.(slopes := d.slopes.(innerCorner := corner, preview := u.preview)))
  }

  /** The anchor conversion of `commit_slope`: a pending inner corner is
      written to the anchor's outline type (when the anchor has one) and
      consumed. */
  function WithInnerCorner(d: SessionData): SessionData {
    var s := d.slopes;
    if s.innerCorner.Some? && s.anchor.Some? then
      var a, types := s.anchor.value, d.outlineTileTypes;
      d.(outlineTileTypes := if a in types then types[a := Tile(s.innerCorner.value)] else types,
         slopes := s.(innerCorner := None))
    else d
  }

  /** The committed slopes after `commit_slope` took the preview `s`, with
      the anchor moved across it. */
  function CommitState(d: SessionData, s: SlopeSegment): SessionData {
    d.(slopes := d.slopes.(committed := d.slopes.committed + [s], anchor := Some(AnchorAfter(s)), preview := None))
  }

  /** `commit_slope`: refused outside slope mode, without a preview, or
      when the previewed type is not enabled; otherwise the anchor
      conversion, the commit, a new suggestion and the outline refresh. */
  function Committed(d: SessionData, enabled: set<string>): (bool, SessionData) {
    var s := d.slopes;
    if !s.mode || s.preview.None? || Name(s.preview.value.shape) !in enabled then (false, d)
    else (true, WithOutline(WithSuggestion(CommitState(WithInnerCorner(d), s.preview.value), enabled)))
  }

  /** The painting direction fixed by the first movement of a stroke
      (`_determine_painting_direction`): the direction is locked, the initial
      heading is recorded, and the stroke paints ground/left exactly when it
      starts rightwards or, when not horizontal, does not start downwards;
      nothing else in the session changes. */
  function WithDirection(d: SessionData, start: Pos, pos: Pos): (r: SessionData)
    ensures r.direction.locked && r.direction.initial == Some(Modes.InitialDirection(start, pos))
    ensures var dx, dy := pos.0 - start.0, pos.1 - start.1;
      r.direction.painting ==
        if (Abs(dx) > Abs(dy) && dx > 0) || (Abs(dx) <= Abs(dy) && dy <= 0) then Modes.GroundLeft else Modes.CeilingRight
    ensures r.(direction := d.direction) == d
  {
    Modes.DefaultForStroke(start, pos);
    var h := Modes.InitialDirection(start, pos);
    d.(direction := DirectionState(Some(h), Modes.DefaultPaintingDirection(HeadingName(h)), true))
  }

  /** The cells of a slope's footprint. */
  function Footprint(s: SlopeSegment): set<Pos> {
    var o, w := s.origin, SizeWidth(s.shape.size);
    set x: int, y: int | o.0 <= x < o.0 + w && o.1 <= y < o.1 + 2 :: (x, y)
  }

  /** The cells of all the slopes' footprints. */
  function Footprints(segs: seq<SlopeSegment>): set<Pos> {
    if segs == [] then {} else Footprints(segs[..|segs| - 1]) + Footprint(segs[|segs| - 1])
  }

  /** The second half of `_build_valid_path`, from the stroke's end
      `current` (entered from `prev`): the dampening check fixes the lock,
      and the walk toward `target` runs with the stroke and `blocked`
      excluded, its steps feeding the run tracking. */
  function WalkedFrom(d: SessionData, current: Pos, prev: Option<Pos>, target: Pos, factor: int, blocked: set<Pos>)
    : (seq<Pos>, SessionData)
  {
    var t := d.dampening;
    var dm := PathWalk.Dampen(factor, t.primaryAxis, t.lastCommitted, t.deviation, current, target);
    var w := PathWalk.WalkFrom(current, prev, target, PathWalk.Elements(d.stroke.path), blocked, dm.lock,
                               PathWalk.MouseAxis(target.0 - current.0, target.1 - current.1));
    var tr := PathWalk.TrackAll(t.lastMove, t.consecutiveCount, PathWalk.StepAxes(current, w));
    (w, d.(dampening := t.(primaryAxis := dm.primary, lastCommitted := dm.lastCommitted, deviation := dm.deviation,
                           lastMove := tr.0, consecutiveCount := tr.1)))
  }

  /** The cell the stroke's end was entered from. */
  function Before(p: seq<Pos>): Option<Pos> {
    if |p| >= 2 then Some(p[|p| - 2]) else None
  }

  /** `_build_valid_path` toward `target`: the cells to append and the new
      session. An empty stroke takes the target itself. Otherwise nothing
      is added for a target at the stroke's end or one the slope-exit
      restriction refuses (which keeps it); else the restriction is
      cleared and the walk runs from the stroke's end with every slope
      footprint excluded as well. */
  function PathFor(d: SessionData, target: Pos, factor: int): (seq<Pos>, SessionData) {
    var p := d.stroke.path;
    if p == [] then ([target], d)
    else if target == End(p) then ([], d)
    else
      var gate := PathWalk.ExitGate(d.slopes.exitDirection, target.0 - End(p).0);
      if !gate.0 then ([], d)
      else WalkedFrom(d.(slopes := d.slopes.(exitDirection := gate.1)), End(p), Before(p), target, factor,
                      Footprints(Segments(d)))
  }

  /** The session `update_painting` has before the path builder runs:
      positions advanced, and the direction fixed on the first movement. */
  function Advanced(d: SessionData, pos: Pos): SessionData {
    var d1 := d.(stroke := d.stroke.(lastPos := d.stroke.currentPos, currentPos := Some(pos)));
    if !d1.direction.locked && d1.stroke.startPos.Some? then WithDirection(d1, d1.stroke.startPos.value, pos) else d1
  }

  /** The stroke extended by what `PathFor` returns. */
  function Extended(d: SessionData, pos: Pos, factor: int): SessionData {
    var r := PathFor(d, pos, factor);
    r.1.(stroke := r.1.stroke.(path := r.1.stroke.path + r.0))
  }

  /** `update_painting` for a mouse at `pos`: refused unless `active` (not
      idle, with a brush); a repeated position changes nothing. Otherwise
      the session advances, and unless `pos` is already the stroke's end
      the cells of `PathFor` are appended; in deferred mode the outline is
      then refreshed. */
  function Painted(d: SessionData, pos: Pos, active: bool, deferred: bool, factor: int): (bool, SessionData) {
    if !active then (false, d)
    else if Some(pos) == d.stroke.currentPos then (true, d)
    else
      var d2 := Advanced(d, pos);
      if d2.stroke.lastPos.Some? && d2.stroke.path != [] && pos == End(d2.stroke.path) then (true, d2)
      else
        var d3 := if d2.stroke.lastPos.None? then d2 else Extended(d2, pos, factor);
        (true, if deferred then WithOutline(d3) else d3)
  }

  /** The stroke `_build_valid_path` promises: every cell a cardinal
      neighbour of the one before, and no cell twice. */
  predicate CleanStroke(p: seq<Pos>) {
    Distinct(p) && forall i :: 0 < i < |p| ==> PathWalk.Dist(p[i - 1], p[i]) == 1
  }

  /** The tileset index of a brush slot: `Pa0`..`Pa3` give their digit,
      any other slot 0. */
  function SlotIndex(slot: string): (i: int)
    ensures 0 <= i <= 3
    ensures i == 0 <==> slot !in ["Pa1", "Pa2", "Pa3"]
    ensures slot == ["Pa0", "Pa1", "Pa2", "Pa3"][i] || i == 0
  {
    if slot == "Pa1" then 1 else if slot == "Pa2" then 2 else if slot == "Pa3" then 3 else 0
  }

  /** The mutable `PaintingEngine`. Its `PaintingSession` is held as a
      value: only the engine holds it, and each `self.session.x = ...` of
      the engine becomes an update of that value. */
  class PaintingEngine {
    var state: PaintingState
    var mode: PaintingMode
    var session: SessionData
    var brush: Option<Brush.BrushState>
    var tilesetIdx: int
    var layer: int
    var objectDatabase: map<TileKey, int>
    var emptySlopeRegions: set<TileKey>
    var dampeningFactor: int

    /** Everything but the session and the painting state is as before. */
    twostate predicate SettingsKept()
      reads this
    {
      mode == old(mode) && brush == old(brush) && tilesetIdx == old(tilesetIdx) && layer == old(layer)
      && objectDatabase == old(objectDatabase) && dampeningFactor == old(dampeningFactor)
      && emptySlopeRegions == old(emptySlopeRegions)
    }

    /** The brush's enabled slopes, empty without a brush. */
    function Enabled(): set<string>
      reads this
    {
      if brush.Some? then brush.value.enabledSlopes else {}
    }

    constructor()
      ensures state == Idle && mode == Deferred && session == Cleared(map[])
      ensures brush.None? && tilesetIdx == 0 && layer == 1 && objectDatabase == map[] && dampeningFactor == 2
      ensures emptySlopeRegions == {}
    {
      state, mode, session := Idle, Deferred, Cleared(map[]);
      brush, tilesetIdx, layer, objectDatabase, dampeningFactor := None, 0, 1, map[], 2;
      emptySlopeRegions := {};
    }

    /** `set_brush`: the tileset index follows the brush's slot. */
    method SetBrush(b: Option<Brush.BrushState>)
      modifies this
      ensures brush == b
      ensures tilesetIdx == if b.Some? then SlotIndex(b.value.slot) else old(tilesetIdx)
      ensures state == old(state) && session == old(session) && mode == old(mode) && layer == old(layer)
      ensures objectDatabase == old(objectDatabase) && dampeningFactor == old(dampeningFactor)
      ensures emptySlopeRegions == old(emptySlopeRegions)
    {
      brush := b;
      if b.Some? {
        tilesetIdx := SlotIndex(b.value.slot);
      }
    }

    /** `set_layer`: clamped to 0..2; a layer in range is kept as given. */
    method SetLayer(l: int)
      modifies this
      ensures 0 <= layer <= 2
      ensures 0 <= l <= 2 ==> layer == l
      ensures l < 0 ==> layer == 0
      ensures l > 2 ==> layer == 2
      ensures state == old(state) && session == old(session) && mode == old(mode) && brush == old(brush)
      ensures tilesetIdx == old(tilesetIdx) && objectDatabase == old(objectDatabase)
      ensures dampeningFactor == old(dampeningFactor) && emptySlopeRegions == old(emptySlopeRegions)
    {
      layer := Max(0, Min(2, l));
    }

    /** `set_dampening_factor`: clamped to 0..10. */
    method SetDampeningFactor(f: int)
      modifies this
      ensures 0 <= dampeningFactor <= 10
      ensures 0 <= f <= 10 ==> dampeningFactor == f
      ensures f < 0 ==> dampeningFactor == 0
      ensures f > 10 ==> dampeningFactor == 10
      ensures state == old(state) && session == old(session) && mode == old(mode) && brush == old(brush)
      ensures tilesetIdx == old(tilesetIdx) && objectDatabase == old(objectDatabase) && layer == old(layer)
      ensures emptySlopeRegions == old(emptySlopeRegions)
    {
      dampeningFactor := Max(0, Min(10, f));
    }

    /** `update_object_database`: the engine's database and the stroke's
        tile map both become `db`; given regions replace the empty slope
        regions, and no regions keep them. */
    method UpdateObjectDatabase(db: map<TileKey, int>, regions: Option<set<TileKey>>)
      modifies this
      ensures objectDatabase == db && session == old(session).(stroke := old(session).stroke.(existingTiles := db))
      ensures emptySlopeRegions == regions.GetOr(old(emptySlopeRegions))
      ensures state == old(state) && mode == old(mode) && brush == old(brush) && tilesetIdx == old(tilesetIdx)
      ensures layer == old(layer) && dampeningFactor == old(dampeningFactor)
    {
      objectDatabase := db;
      session := session.(stroke := session.stroke.(existingTiles := db));
      if regions.Some? {
        emptySlopeRegions := regions.value;
      }
    }

    /** `set_empty_slope_regions`. */
    method SetEmptySlopeRegions(regions: set<TileKey>)
      modifies this
      ensures emptySlopeRegions == regions
      ensures objectDatabase == old(objectDatabase) && session == old(session)
      ensures state == old(state) && mode == old(mode) && brush == old(brush) && tilesetIdx == old(tilesetIdx)
      ensures layer == old(layer) && dampeningFactor == old(dampeningFactor)
    {
      emptySlopeRegions := regions;
    }

    /** `is_in_empty_slope_region`. */
    function IsInEmptySlopeRegion(x: int, y: int, l: int): (b: bool)
      reads this
      ensures b <==> (x, y, l) in emptySlopeRegions
    {
      (x, y, l) in emptySlopeRegions
    }

    /** `add_to_object_database`: the key takes the id in the database and
        in the stroke's tile map; every other entry is kept. */
    method AddToObjectDatabase(x: int, y: int, l: int, id: int)
      modifies this
      ensures objectDatabase == old(objectDatabase)[(x, y, l) := id]
      ensures session == old(session).(stroke := old(session).stroke.(
                existingTiles := old(session).stroke.existingTiles[(x, y, l) := id]))
      ensures state == old(state) && mode == old(mode) && brush == old(brush) && tilesetIdx == old(tilesetIdx)
      ensures layer == old(layer) && dampeningFactor == old(dampeningFactor)
      ensures emptySlopeRegions == old(emptySlopeRegions)
    {
      objectDatabase := objectDatabase[(x, y, l) := id];
      session := session.(stroke := session.stroke.(existingTiles := session.stroke.existingTiles[(x, y, l) := id]));
    }

    /** `remove_from_object_database`: the key leaves both maps, present or
        not; every other entry is kept. */
    method RemoveFromObjectDatabase(x: int, y: int, l: int)
      modifies this
      ensures objectDatabase == old(objectDatabase) - {(x, y, l)}
      ensures session == old(session).(stroke := old(session).stroke.(
                existingTiles := old(session).stroke.existingTiles - {(x, y, l)}))
      ensures state == old(state) && mode == old(mode) && brush == old(brush) && tilesetIdx == old(tilesetIdx)
      ensures layer == old(layer) && dampeningFactor == old(dampeningFactor)
      ensures emptySlopeRegions == old(emptySlopeRegions)
    {
      var key := (x, y, l);
      objectDatabase := objectDatabase - {key};
      session := session.(stroke := session.stroke.(existingTiles := session.stroke.existingTiles - {key}));
    }

    /** `_update_outline`. */
    method UpdateOutline()
      modifies this
      ensures session == WithOutline(old(session))
      ensures state == old(state) && SettingsKept()
    {
      var p := session.stroke.path;
      if session.stroke.startPos.None? || p == [] {
        return;
      }
      var segs := session.slopes.committed;
      if session.slopes.mode && session.slopes.preview.Some? {
        segs := segs + [session.slopes.preview.value];
      }
      assert segs == Segments(session);
      var outline, types := BuildOutline(p, segs, session.direction.initial);
      session := session.(outlinePositions := outline, outlineTileTypes := types);
    }

    /** `_suggest_default_slope`. */
    method SuggestDefaultSlope()
      modifies this
      ensures session == WithSuggestion(old(session), Enabled())
      ensures state == old(state) && SettingsKept()
    {
      var s := session.slopes;
      if s.anchor.None? {
        return;
      }
      var dir := if s.currentDirection.Some? then s.currentDirection else session.direction.initial;
      var suggestion := DefaultSuggestion(s.anchor.value, dir, EnabledShapes(Enabled()));
      if suggestion.Some? {
        session := session.(slopes := s.(preview := suggestion));
      }
    }

    /** `toggle_slope_mode`: true when slope mode is now on. */
    method ToggleSlopeMode() returns (on: bool)
      modifies this
      ensures (on, session) == Toggled(old(session), Enabled())
      ensures state == old(state) && SettingsKept()
    {
      var p := session.stroke.path;
      if !session.slopes.mode {
        if p != [] {
          var dir := CurrentDirection(p, session.direction.initial);
          session := session.(slopes := session.slopes.(anchor := Some(p[|p| - 1]), pathLength := |p|,
                                                       currentDirection := dir));
        }
        session := session.(slopes := session.slopes.(mode := true, preview := None));
        SuggestDefaultSlope();
        UpdateOutline();
        return true;
      }
      var s := session.slopes;
      if s.anchor.Some? {
        session := session.(stroke := session.stroke.(path := Take(p, s.pathLength) + [s.anchor.value]));
      }
      session := session.(slopes := s.(exitDirection := ExitDirection(s.committed), mode := false, anchor := None,
                                       preview := None));
      UpdateOutline();
      return false;
    }

    /** `update_slope_preview`; `angle` classifies the mouse's offset from
        the anchor. */
    method UpdateSlopePreview(mouse: Pos, angle: (nat, nat) -> AngleClass)
      modifies this
      ensures session == Previewed(old(session), mouse, Enabled(), angle)
      ensures state == old(state) && SettingsKept()
    {
      var s := session.slopes;
      if !s.mode || s.anchor.None? {
        return;
      }
      var dir := if s.currentDirection.Some? then s.currentDirection else session.direction.initial;
      var u := PreviewFor(s.anchor.value, mouse, dir, EnabledShapes(Enabled()), angle);
      if u.innerCorner.Some? {
        s := s.(innerCorner := u.innerCorner.value);
      }
      session := session.(slopes := s.(preview := u.preview));
      UpdateOutline();
    }

    /** `commit_slope`: true when a slope was committed. */
    method CommitSlope() returns (ok: bool)
      modifies this
      ensures (ok, session) == Committed(old(session), Enabled())
      ensures state == old(state) && SettingsKept()
    {
      var s := session.slopes;
      if !s.mode || s.preview.None? {
        return false;
      }
      var seg := s.preview.value;
      if Name(seg.shape) !in Enabled() {
        return false;
      }
      if s.innerCorner.Some? && s.anchor.Some? {
        var a := s.anchor.value;
        if a in session.outlineTileTypes {
          session := session.(outlineTileTypes := session.outlineTileTypes[a := Tile(s.innerCorner.value)]);
        }
        session := session.(slopes := s.(innerCorner := None));
      }
      session := session.(slopes := session.slopes.(committed := session.slopes.committed + [seg],
                                                   anchor := Some(AnchorAfter(seg)), preview := None));
      SuggestDefaultSlope();
      UpdateOutline();
      return true;
    }

    /** `start_painting`: refused without a brush; otherwise a fresh session
        holding only the start position, over a copy of the object
        database. The tile painted at once in immediate mode is not part of
        this model. */
    method StartPainting(pos: Pos) returns (ok: bool)
      modifies this
      ensures ok <==> brush.Some?
      ensures !ok ==> session == old(session) && state == old(state)
      ensures ok ==> state == (if mode == Immediate then PaintingImmediate else PaintingDeferred)
      ensures ok ==> session == if mode == Immediate then Started(objectDatabase, pos)
                                else WithOutline(Started(objectDatabase, pos))
      ensures SettingsKept()
    {
      if brush.None? {
        return false;
      }
      session := Cleared(session.stroke.existingTiles);
      session := session.(stroke := session.stroke.(startPos := Some(pos), currentPos := Some(pos),
                                                   lastPos := Some(pos), path := [pos]));
      session := session.(stroke := session.stroke.(existingTiles := objectDatabase));
      if mode == Immediate {
        state := PaintingImmediate;
      } else {
        state := PaintingDeferred;
        UpdateOutline();
      }
      return true;
    }

    /** `cancel_painting`: idle, with a reset session. */
    method CancelPainting()
      modifies this
      ensures state == Idle && session == Cleared(old(session.stroke.existingTiles))
      ensures SettingsKept()
    {
      state := Idle;
      session := Cleared(session.stroke.existingTiles);
    }

    /** `_build_valid_path`: the cells to append for a mouse at `target`. */
    method BuildValidPath(target: Pos) returns (points: seq<Pos>)
      modifies this
      ensures (points, session) == PathFor(old(session), target, dampeningFactor)
      ensures state == old(state) && SettingsKept()
    {
      var p := session.stroke.path;
      if p == [] {
        return [target];
      }
      var current := p[|p| - 1];
      if target == current {
        return [];
      }
      var blocked := SlopeCells();
      var prev := if |p| >= 2 then Some(p[|p| - 2]) else None;
      points := PassExitGate(current, prev, target, blocked);
    }

    /** The cells of the committed slopes and, in slope mode, of the
        preview: the cells `_build_valid_path` never enters. */
    method SlopeCells() returns (blocked: set<Pos>)
      ensures blocked == Footprints(Segments(session))
    {
      var segs := session.slopes.committed;
      if session.slopes.mode && session.slopes.preview.Some? {
        segs := segs + [session.slopes.preview.value];
      }
      assert segs == Segments(session);
      blocked := PathWalk.SlopeBlocked(segs);
      FootprintsMeaning(segs);
    }

    /** The slope-exit restriction of `_build_valid_path` and the walk
        beyond it. */
    method PassExitGate(current: Pos, prev: Option<Pos>, target: Pos, blocked: set<Pos>) returns (points: seq<Pos>)
      requires session.stroke.path != [] && current == End(session.stroke.path) && target != current
      requires prev == Before(session.stroke.path) && blocked == Footprints(Segments(session))
      modifies this
      ensures (points, session) == PathFor(old(session), target, dampeningFactor)
      ensures state == old(state) && SettingsKept()
    {
      var dx := target.0 - current.0;
      if session.slopes.exitDirection.Some? {
        var gate := PathWalk.ExitGate(session.slopes.exitDirection, dx);
        if !gate.0 {
          return [];
        }
      }
      session := session.(slopes := session.slopes.(exitDirection := None));
      points := WalkFromEnd(current, prev, target, blocked);
    }

    /** The dampening check and the walk of `_build_valid_path`. */
    method WalkFromEnd(current: Pos, prev: Option<Pos>, target: Pos, blocked: set<Pos>) returns (points: seq<Pos>)
      modifies this
      ensures (points, session) == WalkedFrom(old(session), current, prev, target, dampeningFactor, blocked)
      ensures state == old(state) && SettingsKept()
    {
      var t := session.dampening;
      var mouse := PathWalk.MouseAxis(target.0 - current.0, target.1 - current.1);
      var dm := PathWalk.Dampen(dampeningFactor, t.primaryAxis, t.lastCommitted, t.deviation, current, target);
      var lastMove, count;
      points, lastMove, count := PathWalk.Walk(current, prev, target, PathWalk.Elements(session.stroke.path), blocked,
                                               dm.lock, mouse, t.lastMove, t.consecutiveCount);
      session := session.(dampening := t.(primaryAxis := dm.primary, lastCommitted := dm.lastCommitted,
                                          deviation := dm.deviation, lastMove := lastMove,
                                          consecutiveCount := count));
    }

    /** The first half of `update_painting`: the positions move on, and the
        first movement fixes the direction. */
    method Advance(pos: Pos)
      modifies this
      ensures session == Advanced(old(session), pos)
      ensures state == old(state) && SettingsKept()
    {
      session := session.(stroke := session.stroke.(lastPos := session.stroke.currentPos, currentPos := Some(pos)));
      if !session.direction.locked && session.stroke.startPos.Some? {
        var h := Modes.InitialDirection(session.stroke.startPos.value, pos);
        session := session.(direction := DirectionState(Some(h), Modes.DefaultPaintingDirection(HeadingName(h)), true));
      }
    }

    /** `update_painting` for a mouse at `pos`; the painting of the new
        cells in immediate mode is not part of this model. */
    method UpdatePainting(pos: Pos) returns (ok: bool)
      modifies this
      ensures (ok, session)
           == Painted(old(session), pos, state != Idle && brush.Some?, state == PaintingDeferred, dampeningFactor)
      ensures state == old(state) && SettingsKept()
    {
      if state == Idle || brush.None? {
        return false;
      }
      if Some(pos) == session.stroke.currentPos {
        return true;
      }
      Advance(pos);
      if session.stroke.lastPos.Some? {
        var p := session.stroke.path;
        if p != [] && pos == p[|p| - 1] {
          return true;
        }
        ghost var d2 := session;
        var points := BuildValidPath(pos);
        session := session.(stroke := session.stroke.(path := session.stroke.path + points));
        assert session == Extended(d2, pos, dampeningFactor);
      }
      if state == PaintingDeferred {
        UpdateOutline();
      }
      return true;
    }

    /** What the finish of a stroke reads from the engine besides the
        session. */
    function FinishContext(): Finalize.Context
      requires brush.Some?
      reads this
    {
      Finalize.Context(session.outlineTileTypes, emptySlopeRegions, brush.value, tilesetIdx, layer)
    }

    /** `_finalize_deferred_painting`: the slope objects of the first pass
        followed by a merge of the terrain cells it collected; the stroke's
        placed keys gain the cells of the merged objects and its tile map
        records their ids on those cells. */
    method FinalizeDeferredPainting() returns (placements: seq<Placement>)
      requires brush.Some?
      modifies this
      ensures |placements| >= |Finalize.FirstPass(old(session).outlinePositions, old(FinishContext()),
                                                   old(session).stroke.placedTiles).slopes|
      ensures var p := Finalize.FirstPass(old(session).outlinePositions, old(FinishContext()),
                                          old(session).stroke.placedTiles);
        var merged := placements[|p.slopes|..];
        && placements[..|p.slopes|] == p.slopes
        && Merge.IsMergeOf(p.tiles, merged, old(tilesetIdx), old(layer))
        && session == old(session).(stroke := old(session).stroke.(
             placedTiles := Finalize.MarkPlaced(p.placed, merged, old(layer)),
             existingTiles := Finalize.MarkExisting(old(session).stroke.existingTiles, merged, old(layer))))
      ensures state == old(state) && SettingsKept()
    {
      var ctx := FinishContext();
      ghost var s0 := session;
      ghost var p := Finalize.FirstPass(s0.outlinePositions, ctx, s0.stroke.placedTiles);
      var slopes, tiles, order, placed := Finalize.RunFirstPass(session.outlinePositions, ctx, session.stroke.placedTiles);
      assert Finalize.Pass(slopes, tiles, order, placed) == p;
      var merged := Merge.MergeConsecutiveTiles(tiles, order, tilesetIdx, layer);
      placements := slopes + merged;
      assert placements[..|p.slopes|] == p.slopes && placements[|p.slopes|..] == merged;
      assert Merge.IsMergeOf(p.tiles, placements[|p.slopes|..], tilesetIdx, layer);
      var existing;
      placed, existing := Finalize.MarkAll(placed, session.stroke.existingTiles, merged, layer);
      assert placed == Finalize.MarkPlaced(p.placed, merged, layer);
      assert existing == Finalize.MarkExisting(s0.stroke.existingTiles, merged, layer);
      session := session.(stroke := session.stroke.(placedTiles := placed, existingTiles := existing));
    }
  }

  // ----- what the operations promise -----

  /** The cells of one footprint are the cells the slope covers. */
  lemma FootprintCells(s: SlopeSegment)
    ensures forall c :: c in Footprint(s) <==> InFootprint(c, s.shape, s.origin)
  {
    forall c | InFootprint(c, s.shape, s.origin) ensures c in Footprint(s) {
      assert c == (c.0, c.1);
    }
  }

  /** Covering by a list of slopes, split at its last slope. */
  lemma AnyFootprintSplit(segs: seq<SlopeSegment>)
    requires segs != []
    ensures var init, s := segs[..|segs| - 1], segs[|segs| - 1];
      forall c :: PathWalk.InAnyFootprint(c, segs) <==> PathWalk.InAnyFootprint(c, init) || InFootprint(c, s.shape, s.origin)
  {
    var init, s := segs[..|segs| - 1], segs[|segs| - 1];
    forall c | PathWalk.InAnyFootprint(c, segs)
      ensures PathWalk.InAnyFootprint(c, init) || InFootprint(c, s.shape, s.origin)
    {
      var k :| 0 <= k < |segs| && InFootprint(c, segs[k].shape, segs[k].origin);
      if k < |init| {
        assert init[k] == segs[k];
      }
    }
    forall c | PathWalk.InAnyFootprint(c, init) ensures PathWalk.InAnyFootprint(c, segs) {
      var k :| 0 <= k < |init| && InFootprint(c, init[k].shape, init[k].origin);
      assert segs[k] == init[k];
    }
    forall c | InFootprint(c, s.shape, s.origin) ensures PathWalk.InAnyFootprint(c, segs) {
      assert InFootprint(c, segs[|segs| - 1].shape, segs[|segs| - 1].origin);
    }
  }

  /** The footprint cells are exactly the cells some slope covers. */
  lemma {:induction false} FootprintsMeaning(segs: seq<SlopeSegment>)
    ensures forall c :: c in Footprints(segs) <==> PathWalk.InAnyFootprint(c, segs)
  {
    if segs != [] {
      FootprintsMeaning(segs[..|segs| - 1]);
      FootprintCells(segs[|segs| - 1]);
      AnyFootprintSplit(segs);
    }
  }

  /** The outline a deferred `start_painting` reports through
      `on_outline_updated`: the start cell alone, whatever the database. */
  lemma StartedOutline(db: map<TileKey, int>, pos: Pos)
    ensures WithOutline(Started(db, pos)).outlinePositions == [pos]
  {
    var d := Started(db, pos);
    assert Segments(d) == [];
    var st := OutlineOf([pos], [], d.direction.initial);
    OutlineCovers([pos], [], d.direction.initial);
    var o := st.outline;
    assert WithOutline(d).outlinePositions == o;
    assert o[0..] == o;
    assert pos in o;
    DistinctSingleton(o, pos);
  }

  /** A refreshed outline holds the stroke and the slopes' origins and
      nothing else, with a type for exactly its positions; the preview's
      origin is on it while in slope mode. */
  lemma RefreshedOutline(d: SessionData)
    requires d.stroke.startPos.Some? && d.stroke.path != []
    ensures var r, segs := WithOutline(d), Segments(d);
      (forall p :: p in r.outlinePositions <==> p in d.stroke.path || exists k :: 0 <= k < |segs| && segs[k].origin == p)
      && (forall p :: p in r.outlineTileTypes <==> p in r.outlinePositions)
      && (d.slopes.mode && d.slopes.preview.Some? ==> d.slopes.preview.value.origin in r.outlinePositions)
  {
    var segs := Segments(d);
    OutlineCovers(d.stroke.path, segs, d.direction.initial);
    if d.slopes.mode && d.slopes.preview.Some? {
      assert segs[|segs| - 1].origin == d.slopes.preview.value.origin;
    }
  }

  /** The outline types are keyed by exactly the outline's positions. */
  ghost predicate OutlineConsistent(d: SessionData) {
    forall p :: p in d.outlineTileTypes <==> p in d.outlinePositions
  }

  lemma WithOutlineConsistent(d: SessionData)
    requires OutlineConsistent(d)
    ensures OutlineConsistent(WithOutline(d))
  {
    if d.stroke.startPos.Some? && d.stroke.path != [] {
      RefreshedOutline(d);
    }
  }

  /** Toggling slope mode keeps the outline types keyed by the outline. */
  lemma ToggleKeepsOutline(d: SessionData, enabled: set<string>)
    requires OutlineConsistent(d)
    ensures OutlineConsistent(Toggled(d, enabled).1)
  {
    if !d.slopes.mode {
      WithOutlineConsistent(WithSuggestion(d.(slopes := EntrySlopes(d)), enabled));
    } else {
      WithOutlineConsistent(ExitState(d));
    }
  }

  /** So does a preview update. */
  lemma PreviewKeepsOutline(d: SessionData, mouse: Pos, enabled: set<string>, angle: (nat, nat) -> AngleClass)
    requires OutlineConsistent(d)
    ensures OutlineConsistent(Previewed(d, mouse, enabled, angle))
  {
    if d.slopes.mode && d.slopes.anchor.Some? {
      var u := PreviewFor(d.slopes.anchor.value, mouse, SlopeDirection(d), EnabledShapes(enabled), angle);
      var corner := if u.innerCorner.Some? then u.innerCorner.value else d.slopes.innerCorner;
      WithOutlineConsistent(d.(slopes := d.slopes.(innerCorner := corner, preview := u.preview)));
    }
  }

  /** And so does a commit: the inner-corner conversion only retypes a
      position already on the outline. */
  lemma CommitKeepsOutline(d: SessionData, enabled: set<string>)
    requires OutlineConsistent(d)
    ensures OutlineConsistent(Committed(d, enabled).1)
  {
    if d.slopes.mode && d.slopes.preview.Some? {
      WithOutlineConsistent(WithSuggestion(CommitState(WithInnerCorner(d), d.slopes.preview.value), enabled));
    }
  }

  /** Starting, cancelling and painting keep the outline types keyed by
      the outline. */
  lemma StrokeOperationsKeepOutline(d: SessionData, db: map<TileKey, int>, pos: Pos, active: bool, deferred: bool,
                                    factor: int)
    requires OutlineConsistent(d)
    ensures OutlineConsistent(Cleared(d.stroke.existingTiles))
    ensures OutlineConsistent(Started(db, pos)) && OutlineConsistent(WithOutline(Started(db, pos)))
    ensures OutlineConsistent(Painted(d, pos, active, deferred, factor).1)
  {
    WithOutlineConsistent(Started(db, pos));
    if active && Some(pos) != d.stroke.currentPos {
      var d2 := Advanced(d, pos);
      if d2.stroke.lastPos.Some? {
        PathForFrame(d2, pos, factor);
        WithOutlineConsistent(Extended(d2, pos, factor));
      } else {
        WithOutlineConsistent(d2);
      }
    }
  }

  /** The path builder only changes the slope-exit restriction and the
      dampening state. */
  lemma PathForFrame(d: SessionData, target: Pos, factor: int)
    ensures var r := PathFor(d, target, factor).1;
      r == d.(slopes := r.slopes, dampening := r.dampening)
      && r.slopes == d.slopes.(exitDirection := r.slopes.exitDirection)
  {
  }

  /** The case of `PathFor` that walks. */
  lemma PathForWalks(d: SessionData, target: Pos, factor: int)
    requires d.stroke.path != [] && target != End(d.stroke.path)
    requires PathWalk.ExitGate(d.slopes.exitDirection, target.0 - End(d.stroke.path).0).0
    ensures PathFor(d, target, factor)
         == WalkedFrom(d.(slopes := d.slopes.(exitDirection := None)), End(d.stroke.path), Before(d.stroke.path),
                       target, factor, Footprints(Segments(d)))
  {
  }

  /** What the walk of `_build_valid_path` promises about its cells: each
      a cardinal neighbour of the one before (of `current` for the first,
      which is not `prev`), one step closer to the target, never on the
      stroke, in `blocked` or a repeat. */
  lemma WalkedFromFacts(d: SessionData, current: Pos, prev: Option<Pos>, target: Pos, factor: int, blocked: set<Pos>)
    ensures var w := WalkedFrom(d, current, prev, target, factor, blocked).0;
      |w| <= PathWalk.Dist(current, target)
      && (w != [] ==> PathWalk.Dist(current, w[0]) == 1 && prev != Some(w[0]))
      && (forall i :: 0 < i < |w| ==> PathWalk.Dist(w[i - 1], w[i]) == 1)
      && Distinct(w)
      && (forall x :: x in w ==> x !in d.stroke.path && x !in blocked)
  {
    var t := d.dampening;
    var dm := PathWalk.Dampen(factor, t.primaryAxis, t.lastCommitted, t.deviation, current, target);
    var mouse := PathWalk.MouseAxis(target.0 - current.0, target.1 - current.1);
    var elems := PathWalk.Elements(d.stroke.path);
    PathWalk.WalkFacts(current, prev, target, elems, blocked, dm.lock, mouse);
    var w := PathWalk.WalkFrom(current, prev, target, elems, blocked, dm.lock, mouse);
    forall i | 0 < i < |w| ensures PathWalk.Dist(w[i - 1], w[i]) == 1 {
      assert 0 <= i - 1 < i < |w| && i == (i - 1) + 1;
    }
    forall x | x in w ensures x !in d.stroke.path {
      assert x !in elems;
    }
  }

  /** What `_build_valid_path` promises about the cells it returns: from
      an empty stroke only the target; otherwise each cell a cardinal
      neighbour of the one before (of the stroke's end for the first, which
      is not the cell the stroke came from), no more cells than the
      distance, never a cell of the stroke, of a slope footprint or a
      repeat; a target the slope-exit restriction refuses gets nothing and
      keeps the restriction, and a walk that moves clears it. */
  lemma PathForFacts(d: SessionData, target: Pos, factor: int)
    ensures var r, p := PathFor(d, target, factor), d.stroke.path;
      (p == [] ==> r.0 == [target])
      && (p != [] ==>
            |r.0| <= PathWalk.Dist(End(p), target)
            && (r.0 != [] ==> PathWalk.Dist(End(p), r.0[0]) == 1 && Before(p) != Some(r.0[0]))
            && (forall i :: 0 < i < |r.0| ==> PathWalk.Dist(r.0[i - 1], r.0[i]) == 1)
            && Distinct(r.0)
            && (forall x :: x in r.0 ==> x !in p && !PathWalk.InAnyFootprint(x, Segments(d)))
            && (d.slopes.exitDirection == Some(LeftToRight) && target.0 <= End(p).0 ==> r == ([], d))
            && (d.slopes.exitDirection == Some(RightToLeft) && target.0 >= End(p).0 ==> r == ([], d))
            && (r.0 != [] ==> r.1.slopes.exitDirection.None?))
  {
    var p := d.stroke.path;
    if p != [] && target != End(p) && PathWalk.ExitGate(d.slopes.exitDirection, target.0 - End(p).0).0 {
      PathForWalks(d, target, factor);
      var d1 := d.(slopes := d.slopes.(exitDirection := None));
      WalkedFromFacts(d1, End(p), Before(p), target, factor, Footprints(Segments(d)));
      FootprintsMeaning(Segments(d));
    }
  }

  /** Appending a walk that starts next to the stroke's end and avoids
      the stroke keeps the stroke clean. */
  lemma CleanAppend(p: seq<Pos>, w: seq<Pos>)
    requires CleanStroke(p) && p != []
    requires w != [] ==> PathWalk.Dist(End(p), w[0]) == 1
    requires forall i :: 0 < i < |w| ==> PathWalk.Dist(w[i - 1], w[i]) == 1
    requires Distinct(w) && forall x :: x in w ==> x !in p
    ensures CleanStroke(p + w)
  {
    var q := p + w;
    forall i, j | 0 <= i < j < |q| ensures q[i] != q[j] {
      if j < |p| {
        assert q[i] == p[i] && q[j] == p[j];
      } else if i >= |p| {
        assert q[i] == w[i - |p|] && q[j] == w[j - |p|];
      } else {
        assert q[i] in p && q[j] in w;
      }
    }
    forall i | 0 < i < |q| ensures PathWalk.Dist(q[i - 1], q[i]) == 1 {
      if i < |p| {
        assert q[i - 1] == p[i - 1] && q[i] == p[i];
      } else if i == |p| {
        assert q[i - 1] == End(p) && q[i] == w[0];
      } else {
        assert q[i - 1] == w[i - 1 - |p|] && q[i] == w[i - |p|];
      }
    }
  }

  /** Appending what the path builder returns keeps a stroke clean, and
      the appended cells avoid every slope. */
  lemma ExtendKeepsClean(d: SessionData, pos: Pos, factor: int)
    requires CleanStroke(d.stroke.path)
    ensures var s := Extended(d, pos, factor).stroke.path;
      CleanStroke(s) && d.stroke.path <= s
      && (d.stroke.path != [] ==> forall x :: x in s[|d.stroke.path|..] ==> !PathWalk.InAnyFootprint(x, Segments(d)))
  {
    var r := PathFor(d, pos, factor);
    PathForFacts(d, pos, factor);
    PathForFrame(d, pos, factor);
    if d.stroke.path != [] {
      CleanAppend(d.stroke.path, r.0);
    }
    assert (d.stroke.path + r.0)[|d.stroke.path|..] == r.0;
  }

  /** `update_painting` keeps the stroke clean: it only ever appends, and
      what it appends continues the stroke one cardinal step at a time
      without revisiting a cell or entering a slope. */
  lemma PaintKeepsStrokeClean(d: SessionData, pos: Pos, active: bool, deferred: bool, factor: int)
    requires CleanStroke(d.stroke.path)
    ensures var s := Painted(d, pos, active, deferred, factor).1.stroke.path;
      CleanStroke(s) && d.stroke.path <= s
      && (d.stroke.path != [] ==> forall x :: x in s[|d.stroke.path|..] ==> !PathWalk.InAnyFootprint(x, Segments(d)))
  {
    if active && Some(pos) != d.stroke.currentPos {
      var d2 := Advanced(d, pos);
      assert d2.stroke.path == d.stroke.path && Segments(d2) == Segments(d);
      if d2.stroke.lastPos.Some? && !(d2.stroke.path != [] && pos == End(d2.stroke.path)) {
        ExtendKeepsClean(d2, pos, factor);
      }
    }
  }

  /** `update_painting`'s bookkeeping: refused when inactive, nothing for a
      repeated position; otherwise the positions advance, the first
      movement of a stroke fixes its direction, which later movements
      keep, and the slopes stay committed. */
  lemma PaintTracksPositions(d: SessionData, pos: Pos, active: bool, deferred: bool, factor: int)
    ensures var r := Painted(d, pos, active, deferred, factor);
      (r.0 <==> active)
      && (!active || Some(pos) == d.stroke.currentPos ==> r.1 == d)
      && (active && Some(pos) != d.stroke.currentPos ==>
            r.1.stroke.currentPos == Some(pos) && r.1.stroke.lastPos == d.stroke.currentPos
            && r.1.stroke.startPos == d.stroke.startPos
            && r.1.slopes.committed == d.slopes.committed && r.1.slopes.mode == d.slopes.mode
            && (!d.direction.locked && d.stroke.startPos.Some? ==>
                  r.1.direction.initial == Some(Modes.InitialDirection(d.stroke.startPos.value, pos))
                  && r.1.direction.locked)
            && (d.direction.locked ==> r.1.direction == d.direction))
  {
    if active && Some(pos) != d.stroke.currentPos {
      PathForFrame(Advanced(d, pos), pos, factor);
    }
  }

  /** Entering slope mode anchors it at the stroke's end, records the
      stroke's length and offers only an enabled slope; leaving it cuts the
      stroke back to that length, appends the anchor, and restricts the
      next walk by the last committed slope. Neither touches the committed
      slopes. */
  lemma ToggleFacts(d: SessionData, enabled: set<string>)
    ensures var r := Toggled(d, enabled);
      r.0 == !d.slopes.mode && r.1.slopes.mode == r.0
      && r.1.slopes.committed == d.slopes.committed
      && (!d.slopes.mode ==>
            r.1.stroke.path == d.stroke.path && r.1.slopes.exitDirection == d.slopes.exitDirection
            && (d.stroke.path != [] ==>
                  r.1.slopes.anchor == Some(End(d.stroke.path)) && r.1.slopes.pathLength == |d.stroke.path|)
            && (d.stroke.path == [] ==> r.1.slopes.anchor == d.slopes.anchor)
            && (r.1.slopes.preview.Some? ==> Name(r.1.slopes.preview.value.shape) in enabled && r.1.slopes.anchor.Some?))
      && (d.slopes.mode ==>
            r.1.stroke.path == (if d.slopes.anchor.Some? then Take(d.stroke.path, d.slopes.pathLength) + [d.slopes.anchor.value]
                                else d.stroke.path)
            && r.1.slopes.exitDirection == ExitDirection(d.slopes.committed)
            && r.1.slopes.anchor.None? && r.1.slopes.preview.None?)
  {
    if !d.slopes.mode {
      var d1 := d.(slopes := EntrySlopes(d));
      if d1.slopes.anchor.Some? {
        SuggestionFacts(d1.slopes.anchor.value, SlopeDirection(d1), EnabledShapes(enabled));
      }
    }
  }

  /** Switching slope mode on and straight off again, without committing
      a slope, appends the stroke's end to the stroke a second time: the
      anchor is the end itself, and leaving puts it back after the
      unchanged stroke, which is then no longer clean. */
  lemma ToggleTwiceRepeatsEnd(d: SessionData, enabled: set<string>)
    requires !d.slopes.mode && d.stroke.path != []
    ensures var e := Toggled(Toggled(d, enabled).1, enabled);
      !e.0 && e.1.stroke.path == d.stroke.path + [End(d.stroke.path)] && !CleanStroke(e.1.stroke.path)
      && e.1.slopes.exitDirection == ExitDirection(d.slopes.committed)
  {
    var r := Toggled(d, enabled).1;
    ToggleFacts(d, enabled);
    ToggleFacts(r, enabled);
    assert Take(r.stroke.path, r.slopes.pathLength) == d.stroke.path;
    var e := d.stroke.path + [End(d.stroke.path)];
    assert e[|e| - 2] == e[|e| - 1];
  }

  /** `update_slope_preview` leaves the stroke, the anchor and the
      committed slopes alone, and any preview it shows is an enabled slope
      on the mouse's side of the anchor, placed by `OriginFor`. */
  lemma PreviewedFacts(d: SessionData, mouse: Pos, enabled: set<string>, angle: (nat, nat) -> AngleClass)
    ensures var r := Previewed(d, mouse, enabled, angle);
      r.stroke == d.stroke && r.slopes.committed == d.slopes.committed && r.slopes.anchor == d.slopes.anchor
      && (!d.slopes.mode || d.slopes.anchor.None? ==> r == d)
      && (d.slopes.mode && d.slopes.anchor.Some? && r.slopes.preview.Some? ==>
            var a, s := d.slopes.anchor.value, r.slopes.preview.value;
            Name(s.shape) in enabled && (s.shape.top <==> mouse.0 > a.0) && (s.shape.left <==> mouse.1 < a.1)
            && s.origin == OriginFor(a, s.shape))
      && (d.slopes.mode && d.slopes.anchor == Some(mouse) ==> r.slopes.preview.None?)
  {
    if d.slopes.mode && d.slopes.anchor.Some? {
      PreviewFacts(d.slopes.anchor.value, mouse, SlopeDirection(d), EnabledShapes(enabled), angle);
    }
  }

  /** `commit_slope` succeeds exactly in slope mode with an enabled
      preview; it then appends exactly that slope to the committed ones,
      moves the anchor to the slope's far end and offers only an enabled
      slope next, and otherwise changes nothing. */
  lemma CommitFacts(d: SessionData, enabled: set<string>)
    ensures var r := Committed(d, enabled);
      (r.0 <==> d.slopes.mode && d.slopes.preview.Some? && Name(d.slopes.preview.value.shape) in enabled)
      && (!r.0 ==> r.1 == d)
      && (r.0 ==>
            r.1.slopes.committed == d.slopes.committed + [d.slopes.preview.value]
            && r.1.slopes.anchor == Some(AnchorAfter(d.slopes.preview.value))
            && r.1.slopes.mode && r.1.stroke == d.stroke
            && (r.1.slopes.preview.Some? ==> Name(r.1.slopes.preview.value.shape) in enabled))
  {
    if d.slopes.mode && d.slopes.preview.Some? {
      var c := CommitState(WithInnerCorner(d), d.slopes.preview.value);
      SuggestionFacts(AnchorAfter(d.slopes.preview.value), SlopeDirection(c), EnabledShapes(enabled));
    }
  }

  /** The outline refresh depends only on the start, the stroke, the
      slopes and the initial direction. */
  lemma SameOutline(a: SessionData, b: SessionData)
    requires a.stroke.startPos.Some? && b.stroke.startPos.Some? && a.stroke.path == b.stroke.path != []
    requires Segments(a) == Segments(b) && a.direction.initial == b.direction.initial
    ensures WithOutline(a).outlineTileTypes == WithOutline(b).outlineTileTypes
  {
  }

  /** The inner-corner conversion `commit_slope` applies to the anchor is
      overwritten by the outline refresh at its end whenever a stroke is
      under way: the outline types after a commit do not depend on the
      pending inner corner. */
  lemma CommitDiscardsInnerCorner(d: SessionData, enabled: set<string>)
    requires d.stroke.startPos.Some? && d.stroke.path != []
    ensures Committed(d, enabled).1.outlineTileTypes
         == Committed(d.(slopes := d.slopes.(innerCorner := None)), enabled).1.outlineTileTypes
  {
    var e := d.(slopes := d.slopes.(innerCorner := None));
    var s := d.slopes;
    if s.mode && s.preview.Some? && Name(s.preview.value.shape) in enabled {
      var x := CommitState(WithInnerCorner(d), s.preview.value);
      var y := CommitState(WithInnerCorner(e), s.preview.value);
      assert x.slopes.(innerCorner := None) == y.slopes.(innerCorner := None);
      SuggestionAgrees(x, y, enabled);
      SameOutline(WithSuggestion(x, enabled), WithSuggestion(y, enabled));
    }
  }

  /** The suggestion reads neither the outline nor the pending inner
      corner, and leaves the stroke and the direction alone. */
  lemma SuggestionAgrees(x: SessionData, y: SessionData, enabled: set<string>)
    requires x.slopes.(innerCorner := None) == y.slopes.(innerCorner := None)
    requires x.stroke == y.stroke && x.direction == y.direction
    ensures WithSuggestion(x, enabled).stroke == x.stroke && WithSuggestion(y, enabled).stroke == y.stroke
    ensures WithSuggestion(x, enabled).direction == WithSuggestion(y, enabled).direction
    ensures Segments(WithSuggestion(x, enabled)) == Segments(WithSuggestion(y, enabled))
  {
    assert x.slopes.anchor == y.slopes.anchor && SlopeDirection(x) == SlopeDirection(y);
  }
}
