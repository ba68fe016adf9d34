/** The active-tool tracker shared by the Quick Paint, fill and deco-fill
    tools (quickpaint/core/tool_manager.py), with the list of deco containers
    the D key cycles through. Registered callbacks and emitted signals are
    recorded in order rather than run. */
module ToolManagement {
  import opened Common

  datatype ToolType =
    | NoTool
    | QptSmartPaint | QptSingleTile | QptEraser | QptShapeCreator
    | FillPaint | DecoFill
    | TilesetOverlay

  /** `is_any_qpt_active` over a tool. */
  predicate IsQpt(t: ToolType) {
    t in {QptSmartPaint, QptSingleTile, QptEraser, QptShapeCreator}
  }

  /** `is_any_fill_active` over a tool. */
  predicate IsFill(t: ToolType) {
    t in {FillPaint, DecoFill}
  }

  /** No tool is both a Quick Paint mode and a fill tool. */
  lemma QptAndFillExclusive(t: ToolType)
    ensures !(IsQpt(t) && IsFill(t))
    ensures IsQpt(t) || IsFill(t) ==> t != NoTool
  {
  }

  /** `get_tool_display_name`. */
  function DisplayName(t: ToolType): (name: string)
    ensures name != "Unknown"
    ensures t == NoTool <==> name == "No Tool"
  {
    match t
    case NoTool => "No Tool"
    case QptSmartPaint => "Quick Paint: SmartPaint"
    case QptSingleTile => "Quick Paint: SingleTile"
    case QptEraser => "Quick Paint: Eraser"
    case QptShapeCreator => "Quick Paint: ShapeCreator"
    case FillPaint => "Fill Paint"
    case DecoFill => "Deco Fill Paint"
    case TilesetOverlay => "Tileset Overlay"
  }

  /** The tool a display name belongs to, if any. */
  function ToolNamed(name: string): Option<ToolType> {
    if name == "No Tool" then Some(NoTool)
    else if name == "Quick Paint: SmartPaint" then Some(QptSmartPaint)
    else if name == "Quick Paint: SingleTile" then Some(QptSingleTile)
    else if name == "Quick Paint: Eraser" then Some(QptEraser)
    else if name == "Quick Paint: ShapeCreator" then Some(QptShapeCreator)
    else if name == "Fill Paint" then Some(FillPaint)
    else if name == "Deco Fill Paint" then Some(DecoFill)
    else if name == "Tileset Overlay" then Some(TilesetOverlay)
    else None
  }

  /** Every tool's display name names that tool alone. */
  lemma DisplayNameRoundTrip(t: ToolType)
    ensures ToolNamed(DisplayName(t)) == Some(t)
  {
  }

  /** A registered callback that was run, or a signal that was emitted. */
  datatype Event =
    | ActivateCallback(tool: ToolType)
    | DeactivateCallback(tool: ToolType)
    | ToolChanged(newTool: ToolType, oldTool: ToolType)
    | ToolDeactivated

  class ToolManager {
    var activeTool: ToolType
    var decoContainers: seq<int>
    var currentDecoIndex: nat
    var activateCallbacks: set<ToolType>
    var deactivateCallbacks: set<ToolType>
    var events: seq<Event>

    /** No container is registered twice, and the index points into the list
        whenever the list is non-empty. */
    predicate Valid()
      reads this
    {
      Distinct(decoContainers)
      && (currentDecoIndex == 0 || currentDecoIndex < |decoContainers|)
    }

    constructor()
      ensures Valid()
      ensures activeTool == NoTool && decoContainers == [] && currentDecoIndex == 0
      ensures activateCallbacks == {} && deactivateCallbacks == {} && events == []
    {
      activeTool, decoContainers, currentDecoIndex := NoTool, [], 0;
      activateCallbacks, deactivateCallbacks, events := {}, {}, [];
    }

    /** `is_any_qpt_active`. */
    predicate IsAnyQptActive()
      reads this
    {
      IsQpt(activeTool)
    }

    /** `is_any_fill_active`. */
    predicate IsAnyFillActive()
      reads this
    {
      IsFill(activeTool)
    }

    /** `register_activate_callback` / `register_deactivate_callback`: only
        which tools have one matters to the model. */
    method RegisterCallbacks(tool: ToolType, onActivate: bool, onDeactivate: bool)
      modifies this
      ensures activateCallbacks == old(activateCallbacks) + (if onActivate then {tool} else {})
      ensures deactivateCallbacks == old(deactivateCallbacks) + (if onDeactivate then {tool} else {})
      ensures activeTool == old(activeTool) && decoContainers == old(decoContainers)
      ensures currentDecoIndex == old(currentDecoIndex) && events == old(events)
    {
      if onActivate {
        activateCallbacks := activateCallbacks + {tool};
      }
      if onDeactivate {
        deactivateCallbacks := deactivateCallbacks + {tool};
      }
    }

    /** `activate_tool`: a no-op for the tool already active; otherwise the
        old tool's deactivate callback and the new tool's activate callback
        run (when registered and not `NoTool`), and `tool_changed(new, old)`
        is emitted. Always answers true. */
    method ActivateTool(tool: ToolType) returns (ok: bool)
      modifies this
      ensures ok
      ensures activeTool == tool
      ensures tool == old(activeTool) ==> events == old(events)
      ensures tool != old(activeTool) ==>
        events == old(events)
          + (if old(activeTool) != NoTool && old(activeTool) in deactivateCallbacks
             then [DeactivateCallback(old(activeTool))] else [])
          + (if tool != NoTool && tool in activateCallbacks then [ActivateCallback(tool)] else [])
          + [ToolChanged(tool, old(activeTool))]
      ensures decoContainers == old(decoContainers) && currentDecoIndex == old(currentDecoIndex)
      ensures activateCallbacks == old(activateCallbacks) && deactivateCallbacks == old(deactivateCallbacks)
    {
      if tool == activeTool {
        return true;
      }
      var oldTool := activeTool;
      if oldTool != NoTool && oldTool in deactivateCallbacks {
        events := events + [DeactivateCallback(oldTool)];
      }
      activeTool := tool;
      if tool != NoTool && tool in activateCallbacks {
        events := events + [ActivateCallback(tool)];
      }
      events := events + [ToolChanged(tool, oldTool)];
      ok := true;
    }

    /** `deactivate_tool` (and `deactivate_all`): nothing happens with no
        active tool; otherwise its deactivate callback runs, the active tool
        becomes `NoTool`, and both signals are emitted. */
    method DeactivateTool()
      modifies this
      ensures activeTool == NoTool
      ensures old(activeTool) == NoTool ==> events == old(events)
      ensures old(activeTool) != NoTool ==>
        events == old(events)
          + (if old(activeTool) in deactivateCallbacks then [DeactivateCallback(old(activeTool))] else [])
          + [ToolChanged(NoTool, old(activeTool)), ToolDeactivated]
      ensures decoContainers == old(decoContainers) && currentDecoIndex == old(currentDecoIndex)
      ensures activateCallbacks == old(activateCallbacks) && deactivateCallbacks == old(deactivateCallbacks)
    {
      if activeTool != NoTool {
        var oldTool := activeTool;
        if oldTool in deactivateCallbacks {
          events := events + [DeactivateCallback(oldTool)];
        }
        activeTool := NoTool;
        events := events + [ToolChanged(NoTool, oldTool), ToolDeactivated];
      }
    }

    /** `register_deco_container`: appended unless already registered. */
    method RegisterDecoContainer(id: int)
      modifies this
      requires Valid()
      ensures Valid()
      ensures decoContainers == if id in old(decoContainers) then old(decoContainers) else old(decoContainers) + [id]
      ensures currentDecoIndex == old(currentDecoIndex) && activeTool == old(activeTool) && events == old(events)
      ensures activateCallbacks == old(activateCallbacks) && deactivateCallbacks == old(deactivateCallbacks)
    {
      if id !in decoContainers {
        decoContainers := decoContainers + [id];
      }
    }

    /** `unregister_deco_container`: the id is removed if present, and an
        index that falls off the end is reset to 0. */
    method UnregisterDecoContainer(id: int)
      modifies this
      requires Valid()
      ensures Valid()
      ensures forall y :: y in decoContainers <==> y in old(decoContainers) && y != id
      ensures id in old(decoContainers) ==> decoContainers == RemoveFirst(old(decoContainers), id)
      ensures id !in old(decoContainers) ==> decoContainers == old(decoContainers) && currentDecoIndex == old(currentDecoIndex)
      ensures currentDecoIndex == (if old(currentDecoIndex) >= |decoContainers| then 0 else old(currentDecoIndex))
      ensures activeTool == old(activeTool) && events == old(events)
      ensures activateCallbacks == old(activateCallbacks) && deactivateCallbacks == old(deactivateCallbacks)
    {
      if id in decoContainers {
        RemoveDistinct(decoContainers, id);
        decoContainers := RemoveFirst(decoContainers, id);
        if currentDecoIndex >= |decoContainers| {
          currentDecoIndex := 0;
        }
      }
    }

    /** `cycle_deco_container`: None with no containers; otherwise the index
        advances by one, wrapping around, and the container there is chosen. */
    method CycleDecoContainer() returns (r: Option<int>)
      modifies this
      requires Valid()
      ensures Valid()
      ensures old(decoContainers) == [] ==> r == None && currentDecoIndex == old(currentDecoIndex)
      ensures old(decoContainers) != [] ==>
        currentDecoIndex == (old(currentDecoIndex) + 1) % |old(decoContainers)|
        && r == Some(old(decoContainers)[currentDecoIndex])
      ensures decoContainers == old(decoContainers) && activeTool == old(activeTool) && events == old(events)
      ensures activateCallbacks == old(activateCallbacks) && deactivateCallbacks == old(deactivateCallbacks)
    {
      if decoContainers == [] {
        return None;
      }
      currentDecoIndex := (currentDecoIndex + 1) % |decoContainers|;
      r := Some(decoContainers[currentDecoIndex]);
    }

    /** `get_current_deco_container`: defined whenever the list is non-empty,
        because `Valid` keeps the index in range. */
    function CurrentDecoContainer(): (r: Option<int>)
      reads this
      requires Valid()
      ensures r.None? <==> decoContainers == []
      ensures r.Some? ==> r.value in decoContainers && r.value == decoContainers[currentDecoIndex]
    {
      if decoContainers == [] then None else Some(decoContainers[currentDecoIndex])
    }
  }
}
