/** The mouse-event bridge between the level view and the painting engine
    (quickpaint/ui/events.py): an immediate mode (paint while the button is
    held) and a deferred mode (click a start object, draw, click again). The
    engine itself is outside this module: every call the handler makes on it
    is recorded in `engineCalls`, and the engine's slope-mode flag is an
    argument. */
module Events {
  import opened Common

  /** `PaintingState` of the handler (not the engine's own state). */
  datatype PaintingState = Idle | Painting | Deferred

  /** The calls the handler makes on `PaintingEngine`, in order. */
  datatype EngineCall =
    | SetBrush
    | SetLayer(layer: int)
    | SetImmediateMode(immediate: bool)
    | StartPainting(pos: Pos)
    | UpdatePainting(pos: Pos)
    | FinishPainting(pos: Pos)
    | CancelPainting
    | ToggleSlopeMode
    | UpdateSlopePreview(pos: Pos)
    | CommitSlope

  /** What an event handler does: return whether it handled the event, or
      raise TypeError. `outline_updated` is declared `pyqtSignal(list)`, so
      the handlers' `outline_updated.emit()` without an argument raises. */
  datatype Outcome = Returns(handled: bool) | RaisesTypeError

  /** The keys `on_key_press` distinguishes. */
  datatype Key = Escape | F1 | OtherKey(code: int)

  class MouseEventHandler {
    var state: PaintingState
    var hasBrush: bool
    var mode: string
    var startPos: Option<Pos>
    var currentPos: Option<Pos>
    var strokePath: seq<Pos>
    var operationCount: nat
    var outline: seq<Pos>
    var startObject: Option<Pos>
    var isImmediateMode: bool
    var engineCalls: seq<EngineCall>

    /** The stroke never visits a cell twice. */
    predicate Valid()
      reads this
    {
      Distinct(strokePath)
    }

    constructor()
      ensures Valid()
      ensures state == Idle && !hasBrush && mode == "SmartPaint"
      ensures startPos == None && currentPos == None && startObject == None
      ensures strokePath == [] && operationCount == 0 && outline == []
      ensures !isImmediateMode && engineCalls == []
    {
      state, hasBrush, mode := Idle, false, "SmartPaint";
      startPos, currentPos, startObject := None, None, None;
      strokePath, operationCount, outline := [], 0, [];
      isImmediateMode, engineCalls := false, [];
    }

    /** `set_brush`: a new painting session, so the start object goes. */
    method SetBrushTo()
      modifies this
      requires Valid()
      ensures Valid()
      ensures hasBrush && startObject == None && state == Idle
      ensures engineCalls == old(engineCalls) + [SetBrush]
      ensures strokePath == old(strokePath) && isImmediateMode == old(isImmediateMode)
      ensures startPos == old(startPos) && currentPos == old(currentPos) && outline == old(outline)
      ensures mode == old(mode) && operationCount == old(operationCount)
    {
      hasBrush, startObject, state := true, None, Idle;
      engineCalls := engineCalls + [SetBrush];
    }

    /** `set_layer`: forwarded to the engine (which clamps it). */
    method SetLayerTo(layer: int)
      modifies this
      requires Valid()
      ensures Valid()
      ensures engineCalls == old(engineCalls) + [SetLayer(layer)]
      ensures state == old(state) && hasBrush == old(hasBrush) && startObject == old(startObject)
      ensures strokePath == old(strokePath) && isImmediateMode == old(isImmediateMode)
      ensures startPos == old(startPos) && currentPos == old(currentPos) && outline == old(outline)
      ensures mode == old(mode) && operationCount == old(operationCount)
    {
      engineCalls := engineCalls + [SetLayer(layer)];
    }

    /** `set_immediate_mode`: kept here and forwarded to the engine. */
    method SetImmediate(immediate: bool)
      modifies this
      requires Valid()
      ensures Valid()
      ensures isImmediateMode == immediate
      ensures engineCalls == old(engineCalls) + [SetImmediateMode(immediate)]
      ensures state == old(state) && hasBrush == old(hasBrush) && startObject == old(startObject)
      ensures strokePath == old(strokePath)
      ensures startPos == old(startPos) && currentPos == old(currentPos) && outline == old(outline)
      ensures mode == old(mode) && operationCount == old(operationCount)
    {
      isImmediateMode := immediate;
      engineCalls := engineCalls + [SetImmediateMode(immediate)];
    }

    /** `cancel_painting`: back to idle with an empty stroke and no start
        object; the engine is cancelled too. */
    method Cancel()
      modifies this
      ensures Valid()
      ensures state == Idle && strokePath == [] && operationCount == 0 && outline == [] && startObject == None
      ensures engineCalls == old(engineCalls) + [CancelPainting]
      ensures hasBrush == old(hasBrush) && isImmediateMode == old(isImmediateMode) && mode == old(mode)
      ensures startPos == old(startPos) && currentPos == old(currentPos)
    {
      state := Idle;
      strokePath, operationCount, outline := [], 0, [];
      startObject := None;
      engineCalls := engineCalls + [CancelPainting];
    }

    /** `reset_start_object`: the start object goes and the engine is
        cancelled, whose `on_outline_updated([])` callback
        (`_on_outline_updated`) empties the handler's outline. */
    method ResetStartObject()
      modifies this
      requires Valid()
      ensures Valid()
      ensures startObject == None && engineCalls == old(engineCalls) + [CancelPainting]
      ensures state == old(state) && strokePath == old(strokePath) && outline == []
      ensures hasBrush == old(hasBrush) && isImmediateMode == old(isImmediateMode) && mode == old(mode)
      ensures startPos == old(startPos) && currentPos == old(currentPos) && operationCount == old(operationCount)
    {
      startObject := None;
      engineCalls := engineCalls + [CancelPainting];
      outline := [];
    }

    /** `on_mouse_press`. Without a brush nothing is handled; in slope mode the
        press is swallowed; in deferred mode another button cancels a pending
        path; a draw click starts a stroke (immediate), sets the start object
        (first deferred click), or finishes the path there and starts again
        from it (later deferred clicks). A deferred `start_painting` reports
        the start cell alone through `_on_outline_updated`
        (`Engine.StartedOutline`), so after a deferred click the outline is
        `[pos]`; an immediate start reports no outline. */
    method OnMousePress(pos: Pos, button: int, drawButton: int, slopeMode: bool) returns (handled: bool)
      modifies this
      requires Valid()
      ensures Valid()
      ensures hasBrush == old(hasBrush) && isImmediateMode == old(isImmediateMode) && mode == old(mode)
      ensures !old(hasBrush) ==> !handled && unchanged(this)
      ensures old(hasBrush) && slopeMode ==> handled && unchanged(this)
      ensures old(hasBrush) && !slopeMode && button != drawButton ==>
        if !isImmediateMode && (old(state) == Deferred || old(startObject).Some?) then
          handled && state == Idle && startObject == None && strokePath == [] && outline == []
          && engineCalls == old(engineCalls) + [CancelPainting]
        else
          !handled && unchanged(this)
      ensures old(hasBrush) && !slopeMode && button == drawButton ==>
        handled && startPos == Some(pos) && currentPos == Some(pos) && strokePath == [pos]
        && (isImmediateMode ==>
              state == Painting && startObject == old(startObject) && outline == old(outline)
              && engineCalls == old(engineCalls) + [StartPainting(pos)])
        && (!isImmediateMode && old(startObject).None? ==>
              state == Deferred && startObject == Some(pos) && outline == [pos]
              && engineCalls == old(engineCalls) + [StartPainting(pos)])
        && (!isImmediateMode && old(startObject).Some? ==>
              state == old(state) && startObject == Some(pos) && outline == [pos]
              && engineCalls == old(engineCalls) + [FinishPainting(pos), StartPainting(pos)])
    {
      if !hasBrush {
        return false;
      }
      if slopeMode {
        return true;
      }
      if !isImmediateMode && button != drawButton {
        if state == Deferred || startObject.Some? {
          Cancel();
          return true;
        }
        return false;
      }
      if button != drawButton {
        return false;
      }
      startPos, currentPos := Some(pos), Some(pos);
      strokePath := [pos];
      if isImmediateMode {
        state := Painting;
        engineCalls := engineCalls + [StartPainting(pos)];
      } else if startObject.None? {
        startObject := Some(pos);
        state := Deferred;
        engineCalls := engineCalls + [StartPainting(pos)];
        outline := [pos];
      } else {
        engineCalls := engineCalls + [FinishPainting(pos)];
        startObject := Some(pos);
        engineCalls := engineCalls + [StartPainting(pos)];
        outline := [pos];
      }
      handled := true;
    }

    /** `on_key_press`: Escape cancels a pending deferred path; F1 toggles the
        engine's slope mode while deferred and then raises at the argument-less
        `outline_updated.emit()`; every other key is unhandled. */
    method OnKeyPress(key: Key) returns (outcome: Outcome)
      modifies this
      requires Valid()
      ensures Valid()
      ensures key == Escape && (old(state) == Deferred || old(startObject).Some?) ==>
        outcome == Returns(true) && state == Idle && startObject == None && strokePath == [] && outline == []
        && engineCalls == old(engineCalls) + [CancelPainting]
      ensures key == F1 && old(state) == Deferred ==>
        outcome == RaisesTypeError && engineCalls == old(engineCalls) + [ToggleSlopeMode]
        && state == old(state) && startObject == old(startObject) && strokePath == old(strokePath)
      ensures key.OtherKey? || (key == Escape && old(state) != Deferred && old(startObject).None?)
              || (key == F1 && old(state) != Deferred) ==>
        outcome == Returns(false) && unchanged(this)
    {
      if key == Escape && (state == Deferred || startObject.Some?) {
        Cancel();
        return Returns(true);
      }
      if key == F1 && state == Deferred {
        engineCalls := engineCalls + [ToggleSlopeMode];
        return RaisesTypeError;
      }
      return Returns(false);
    }

    /** `on_mouse_move`: ignored while idle or without a brush; in slope mode
        it moves the slope preview and then raises at the argument-less
        `outline_updated.emit()`; otherwise the cell joins the stroke unless
        it is already on it, and the engine is updated. */
    method OnMouseMove(pos: Pos, slopeMode: bool) returns (outcome: Outcome)
      modifies this
      requires Valid()
      ensures Valid()
      ensures outcome == Returns(false) <==> old(state) == Idle || !old(hasBrush)
      ensures outcome == Returns(false) ==> unchanged(this)
      ensures outcome != Returns(false) ==> currentPos == Some(pos) && state == old(state) && startObject == old(startObject)
      ensures outcome != Returns(false) && slopeMode ==>
        outcome == RaisesTypeError
        && strokePath == old(strokePath) && engineCalls == old(engineCalls) + [UpdateSlopePreview(pos)]
      ensures outcome != Returns(false) && !slopeMode ==>
        outcome == Returns(true) && pos in strokePath
        && strokePath == (if pos in old(strokePath) then old(strokePath) else old(strokePath) + [pos])
        && engineCalls == old(engineCalls) + [UpdatePainting(pos)]
    {
      if state == Idle || !hasBrush {
        return Returns(false);
      }
      currentPos := Some(pos);
      if slopeMode {
        engineCalls := engineCalls + [UpdateSlopePreview(pos)];
        return RaisesTypeError;
      }
      if pos !in strokePath {
        strokePath := strokePath + [pos];
      }
      engineCalls := engineCalls + [UpdatePainting(pos)];
      outcome := Returns(true);
    }

    /** `on_mouse_release`: a draw-button release commits the slope preview in
        slope mode, and when the engine reports the commit (`committed`) it
        raises at the argument-less `outline_updated.emit()`; it finishes an
        immediate stroke; a deferred release changes nothing. */
    method OnMouseRelease(pos: Pos, button: int, drawButton: int, slopeMode: bool, committed: bool)
      returns (outcome: Outcome)
      modifies this
      requires Valid()
      ensures Valid()
      ensures outcome == Returns(false) <==> old(state) == Idle || !old(hasBrush) || button != drawButton
      ensures outcome == Returns(false) ==> unchanged(this)
      ensures outcome != Returns(false) && slopeMode ==>
        outcome == (if committed then RaisesTypeError else Returns(true))
        && state == old(state) && engineCalls == old(engineCalls) + [CommitSlope]
      ensures outcome != Returns(false) && !slopeMode ==> outcome == Returns(true)
      ensures outcome != Returns(false) && !slopeMode && isImmediateMode ==>
        state == Idle && engineCalls == old(engineCalls) + [FinishPainting(pos)]
      ensures outcome != Returns(false) && !slopeMode && !isImmediateMode ==> unchanged(this)
      ensures strokePath == old(strokePath) && startObject == old(startObject)
    {
      if state == Idle || !hasBrush {
        return Returns(false);
      }
      if button != drawButton {
        return Returns(false);
      }
      if slopeMode {
        engineCalls := engineCalls + [CommitSlope];
        if committed {
          return RaisesTypeError;
        }
        return Returns(true);
      }
      if isImmediateMode {
        engineCalls := engineCalls + [FinishPainting(pos)];
        state := Idle;
      }
      outcome := Returns(true);
    }

    /** `is_painting`: `enginePainting` is the engine's own answer. */
    function IsPainting(enginePainting: bool): (b: bool)
      reads this
      ensures b <==> state != Idle || enginePainting
    {
      state != Idle || enginePainting
    }
  }

  /** A cell on the border of the rectangle spanned by two corners. */
  predicate OnBorder(c: Pos, x1: int, y1: int, x2: int, y2: int) {
    var (minX, maxX, minY, maxY) := (Min(x1, x2), Max(x1, x2), Min(y1, y2), Max(y1, y2));
    minX <= c.0 <= maxX && minY <= c.1 <= maxY
    && (c.0 == minX || c.0 == maxX || c.1 == minY || c.1 == maxY)
  }

  /** `get_rectangle_outline`: the top and bottom rows, then the left and
      right columns, with duplicates removed (`list(set(...))`). */
  method RectangleOutline(x1: int, y1: int, x2: int, y2: int) returns (outline: set<Pos>)
    ensures forall c :: c in outline <==> OnBorder(c, x1, y1, x2, y2)
  {
    var cells: seq<Pos> := [];
    var minX, maxX := Min(x1, x2), Max(x1, x2);
    var minY, maxY := Min(y1, y2), Max(y1, y2);
    for x := minX to maxX + 1
      invariant forall c :: c in cells <==> minX <= c.0 < x && (c.1 == minY || c.1 == maxY)
    {
      cells := cells + [(x, minY), (x, maxY)];
    }
    for y := minY to maxY + 1
      invariant forall c :: c in cells <==>
        (minX <= c.0 <= maxX && (c.1 == minY || c.1 == maxY))
        || (minY <= c.1 < y && (c.0 == minX || c.0 == maxX))
    {
      cells := cells + [(minX, y), (maxX, y)];
    }
    outline := set c | c in cells;
  }
}
