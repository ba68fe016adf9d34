# Quick Paint Tool and support utilities of Reggie, in Dafny

This project models the core of Reggie's Quick Paint Tool and proves properties of that model. The Quick Paint Tool is a terrain-painting subsystem for the level editor. The project also models the editor's small support utilities. Positions are integer pairs. Tile maps are Dafny `map`s and `set`s. Anything the program reads from the host editor, from settings or from the file system becomes a parameter.

Code that changes state step by step is modelled with imperative Dafny:

- Objects whose fields change become classes, for example `PaintingEngine`, `FillEngine`, `SmartBrush`, `MouseEventHandler`, `ToolManager` and `PresetManager`.
- Loops become methods with loop invariants.

Each such method is proved against a specification function. The lemmas then state what the program promises about that function. Pure decisions and string or byte transforms are functions with lemmas.

| file | module | models |
|---|---|---|
| common.dfy | `Common` | options, positions, `ObjectPlacement`, tile-map keys, integer helpers |
| pystr.dfy | `PyStr` | the Python string operations the sources use (`split`, `join`, `strip`, `replace`, `startswith`) |
| tiles.dfy | `Tiles` | the 13 terrain positions and their brush keys |
| slopeshape.dfy | `SlopeShapes` | the 12 slope types, their keys and their sizes (`_get_slope_dimensions`) |
| grid.dfy | `Grid` | rectangles given by two corners and their cells in the order nested loops visit them |
| brush.dfy | `Brush` | `SmartBrush`: getters, setters, reverse lookup, copy and the JSON encoding |
| presets.dfy | `Presets` | `PresetManager`: its built-in and user caches and the override precedence |
| painter.dfy | `Painter` | `QuickPainter`: Bresenham line, neighbours, 8-neighbour auto-tiling, path and single-tile painting, rectangles |
| modes.dfy | `Modes` | the smart-paint direction rules, filter and loop, and the eraser's path and rectangle |
| pathwalk.dfy | `PathWalk` | the engine's path builder (`_build_valid_path`, dampening, run tracking, the exit gate) |
| outline.dfy | `Outline` | `_update_outline` and its corner and edge tables |
| slopemode.dfy | `SlopeMode` | the slope-mode decisions (suggestion, preview, commit, exit direction) |
| merge.dfy | `Merge` | `_merge_consecutive_tiles` and `_remerge_placements` |
| terrain.dfy, terrainscan.dfy | `TerrainAware`, `TerrainScan` | the terrain-connection geometry helpers and their scans over existing tiles |
| finalize.dfy | `Finalize` | `_finalize_deferred_painting`: the first pass over the outline and the marking of placed cells |
| engine.dfy | `Engine` | `PaintingEngine` and `PaintingSession` as a class with the session as a value |
| fillengine.dfy | `Fill` | `FillEngine`: its state machine, the bounded flood fill, the zone-edge overpaint, the slice merge |
| integration.dfy | `Integration` | the auto-fill, slice merging, deco placement and position interpolation of `reggie_integration.py` |
| events.dfy | `Events` | `MouseEventHandler` and `get_rectangle_outline` |
| toolmanager.dfy | `ToolManagement` | `ToolManager`: tool switching and deco-container cycling |
| widget.dfy | `Widget` | the brush-editing handlers and the preset filter and sort of the panel |
| tilepicker.dfy | `TilePicker` | the tile picker's layout, its click lookup, status indicator, clearing and slope footprint |
| catalog.dfy | `Catalog` | version comparison, entry validation and the catalog's entry lists |
| rawdata.dfy | `RawData` | `RawData`: slicing of sprite raw data, `copy`, `optimized`, `fix_size_if_needed` |
| raweditor.dfy | `RawEditor` | `FormattedLineEdit` grouping and validation; the `NewSpriteRawEditor` splice and size rule |
| download.dfy | `Download` | the GitHub URL helpers and `DownloadManager`'s bookkeeping |
| dirty.dfy | `Dirty` | settings groups, path normalisation, value conversion and the dirty flags |
| gamedef.dfy | `GameDef` | the game-definition base chain, file lookup, plugin merge and path fallbacks |
| patchmanager.dfy | `PatchManager` | patch status, full-mod detection, button-enable rules, base-game mapping and scan de-duplication |

## Model

| member | source | states |
|---|---|---|
| Brush.Lookup | quickpaint/core/brush.py:86-98 | a slot the table does not hold reads as None and a held slot reads its id or None (`get_slope_tile`, lines 131-141, is the same read on the slope table) |
| Brush.NewState | quickpaint/core/brush.py:24-84 | a new brush has priority 0, all 13 terrain and 12 slope slots unassigned, every slope enabled and both assigned sets empty; it is well formed |
| Brush.SettersLocal | quickpaint/core/brush.py:119-129 | setting a known slot makes it read back the id and marks it assigned; every other slot, the other table and the enabled set stay as they were, and the brush stays well formed (the slope half: lines 143-153) |
| Brush.SmartBrush.SetTerrainTile | quickpaint/core/brush.py:119-129 | the object's new state is `SetTerrain` of the old one: a known key takes the id and joins `terrain_assigned`, an unknown key changes nothing |
| Brush.SmartBrush.SetSlopeTile | quickpaint/core/brush.py:143-153 | the same rule on the slope table and `slopes_assigned` |
| Brush.FirstWithId | quickpaint/core/brush.py:110-116 | a key it returns holds the id; it returns None exactly when no key of the list holds the id |
| Brush.FirstWithIdIsFirst | quickpaint/core/brush.py:110-112 | no key before the one found holds the same id (dict order) |
| Brush.TypeById | quickpaint/core/brush.py:100-117 | a returned terrain key holds the id in the terrain table, a returned slope key holds it in the slope table; None exactly when no slot of either table holds the id |
| Brush.TypeByIdFirst | quickpaint/core/brush.py:100-117 | when a terrain slot holds the id, the answer is the first such terrain key in table order; otherwise a found answer is the first slope key holding it |
| Brush.FindId | quickpaint/core/brush.py:110-116 | the `for key, obj_id in table.items()` loop returns the first key in table order holding the id |
| Brush.SmartBrush.GetTileTypeById | quickpaint/core/brush.py:100-117 | the terrain loop then the slope loop return `TypeById` of the brush |
| Brush.SmartBrush.Copy | quickpaint/core/brush.py:155-169 | the copy is a new object with equal fields |
| Brush.EncodeSlope | quickpaint/core/brush.py:210-217 | a disabled slope is written as -1, an enabled unassigned one as null, an assigned one as its id |
| Brush.ToJson | quickpaint/core/brush.py:199-227 | the terrain and slope items list every key once, in table order, each with its encoded value |
| Brush.FromJson | quickpaint/core/brush.py:239-292 | priority is clamped into 0..9; name is kept; missing slot and mode default to "Pa0" and "SmartPaint" |
| Brush.SlopeItemsByKey | quickpaint/core/brush.py:264-277 | with distinct keys, each key's slope slot, enabled flag and assigned flag end as its own item sets them; keys without an item keep theirs |
| Brush.TerrainItemsByKey | quickpaint/core/brush.py:283-289 | with distinct keys, a known terrain key ends with its item's id (assigned) or None; keys without an item keep their slot |
| Brush.FromJsonWellFormed | quickpaint/core/brush.py:239-292 | loading never adds keys: the tables keep exactly the fixed keys and the sets name only those keys |
| Brush.FromJsonSlope | quickpaint/core/brush.py:264-279 | a known slope item -1 makes the slope disabled and empty, null makes it enabled and empty, a number makes it enabled and assigned with that id |
| Brush.FromJsonTerrain | quickpaint/core/brush.py:282-289 | a known terrain item with a number is stored and marked assigned; null leaves the slot empty and unassigned |
| Brush.SlopeRoundTrip | quickpaint/core/brush.py:199-279 | through to_json and from_json one slope keeps its enabled flag and, when enabled, its id; a disabled slope comes back empty; it is assigned exactly when enabled with an id |
| Brush.TerrainRoundTrip | quickpaint/core/brush.py:199-289 | through to_json and from_json one terrain slot keeps its value and is assigned exactly when it holds an id |
| Brush.JsonRoundTrip | quickpaint/core/brush.py:199-292 | `from_json(to_json(b))` keeps name, tilesets, slot, mode, terrain, the enabled set and the ids of enabled slopes; disabled slopes lose their ids, priority is clamped, and the assigned sets become exactly the slots holding an id |
| Brush.LoadSlopes | quickpaint/core/brush.py:261-279 | the slope loop of from_json computes the item-by-item update `ApplySlopeItems` |
| Brush.LoadTerrain | quickpaint/core/brush.py:282-289 | the terrain loop of from_json computes `ApplyTerrainItems` |
| Brush.LoadFromJson | quickpaint/core/brush.py:239-292 | from_json builds a new brush whose state is `FromJson` of the data |
| Brush.SmartBrush.constructor | quickpaint/core/brush.py:24-83 | a new brush has the given name, tilesets, slot and mode, priority 0, every slot empty, nothing assigned and every slope enabled |
| Catalog.LeadingDigits | catalog_manager.py:266-271 | the result is the longest prefix of the dot-part made of digit characters; the model's digits are the ASCII digits and the superscripts ¹, ² and ³ |
| Catalog.ToInt | catalog_manager.py:273 | `int(numeric)` succeeds exactly when every character is an ASCII digit, so a superscript digit, which passes the digit test but not `int()`, gives the error |
| Catalog.Pad | catalog_manager.py:281-283 | the padded tuple has length max(n, len) and is the tuple followed by zeros |
| Catalog.CompareTuples | catalog_manager.py:285-290 | the comparison of equal-length tuples is -1, 0 or 1, and 0 exactly when the tuples are equal |
| Catalog.CompareVersions | catalog_manager.py:245-293 | `compare_versions` returns only -1, 0 or 1 |
| Catalog.CompareTuplesAntisymmetric | catalog_manager.py:285-290 | swapping the tuples negates the result |
| Catalog.CompareTuplesTransitive | catalog_manager.py:285-290 | the tuple order is transitive |
| Catalog.CompareTuplesPadded | catalog_manager.py:281-290 | padding both tuples to any common length gives the same comparison |
| Catalog.CompareReflexive | catalog_manager.py:245-293 | compare(a, a) = 0 |
| Catalog.CompareAntisymmetric | catalog_manager.py:245-293 | compare(a, b) = -compare(b, a), parse failures included |
| Catalog.CompareTransitive | catalog_manager.py:245-293 | for versions that parse, a ≤ b and b ≤ c give a ≤ c |
| Catalog.ZeroExtensionEqual | catalog_manager.py:281-290 | a version whose parts are another's followed by zeros compares equal to it |
| Catalog.ParseFailureIsEqual | catalog_manager.py:291-293 | when either version makes parsing raise, the result is 0 |
| Catalog.LeadingVIgnored | catalog_manager.py:261 | a leading 'v' never changes the parsed version |
| Catalog.OneTwoEqualsOneTwoZero | catalog_manager.py:280-290 | "1.2" compares equal to "1.2.0" |
| Catalog.ParseOneTwo | catalog_manager.py:259-274 | "1.2" parses to (1, 2) and "1.2.0" to (1, 2, 0) |
| Catalog.ValidateEntry | catalog_manager.py:122-142 | valid exactly when all four required fields and both stage and patch are present; the message is empty exactly when valid |
| Catalog.FirstMissing | catalog_manager.py:134-142 | the message names the first missing required field, in the order name, version, description, author; with all present it rejects a missing stage or patch |
| Catalog.CatalogManager.AllEntries | catalog_manager.py:98-105 | official entries followed by user entries |
| Catalog.CatalogManager.GetEntryByName | catalog_manager.py:107-120 | None exactly when no entry has the name; otherwise the first entry with that name |
| Catalog.CatalogManager.AddUserEntry | catalog_manager.py:295-321 | an invalid entry leaves both lists unchanged and returns False; a valid one is appended to the user entries, and the result is True exactly when it was valid and saving succeeded |
| Catalog.CatalogManager.constructor | catalog_manager.py:24-27 | both entry lists start empty |
| Dirty.GroupForSetting | dirty.py:31-46 | None exactly for the five root-level names; then the first listed group holding the name (View, Freeze, Preferences); 'GamePaths' for the four per-game prefixes; 'Main' for everything else |
| Dirty.ToBool | dirty.py:82-85 | with a bool default: a bool is kept, text is true exactly for 'true', 'True', '1', an int exactly for 1, anything else is false |
| Dirty.Convert | dirty.py:73-109 | None, 'None' and '@Invalid()' read as None; a bool default gives `ToBool`; a str default gives `str(value)`; a dict or byte-array default keeps a value of that type and otherwise falls back to the default |
| Dirty.NoDefaultBooleans | dirty.py:99-101 | with no default, 'true' and 'false' in any letter case become the matching boolean |
| Dirty.NoDefaultBooleanSpellings | dirty.py:99-101 | with no default, 'TrUe' becomes True and 'FALSE' becomes False |
| Dirty.NoDefaultInt | dirty.py:102-104 | with no default, the text of any integer is read back as that integer |
| Dirty.IntStringRoundTrip | dirty.py:88-90 | `int(str(n)) == n`, the conversion an int default applies to stored text |
| Dirty.IntRoundTrips | dirty.py:88-90 | with an int default, an int stored either as an int or as its text reads back as the same int |
| Dirty.NormalizeNormedAsWritten | dirty.py:126-135 | after normpath: a path with ':' at index 1 becomes drive + '/' + path[3:], or drive + '/' when nothing follows; any other path is kept |
| Dirty.DriveRelativeLosesChar | dirty.py:130 | the code as written turns the drive-relative "C:foo" into "C:/oo", dropping a character that is not a separator |
| Dirty.NormalizeNormed | dirty.py:126-135 | the corrected rule: drive + '/' followed by the rest of the path, skipping the character after the colon only when it is a separator |
| Dirty.NormalizeKeepsCharacters | dirty.py:126-135 | the corrected rule keeps every character of the path except one separator after the drive, and agrees with the code as written whenever that separator is there |
| Dirty.NormalizePathForSettings | dirty.py:112-135 | non-strings and empty text are returned unchanged; other text is normpath'd and then drive-normalised as written (index 2 is dropped after a drive letter); without a drive it is the normpath'd text |
| Dirty.SettingsStore.SetSetting | dirty.py:137-156 | the store changes only at the setting's key (`group/name`, or the bare name for root names), which takes the value, normalised exactly when the value is text holding '/' or '\\' and the name contains 'Path' or 'Level' |
| Dirty.WriteThenRead | dirty.py:48-71 | a value written under a name is what `setting` reads back for that name, after conversion |
| Dirty.DirtyFlags.SetDirty | dirty.py:5-11 | with the override above 0 nothing changes; otherwise Dirty becomes set and AutoSaveDirty becomes set unless noautosave |
| Download.ParseGitHubUrl | download_manager.py:18-43 | a result exists only for text starting with `https://github.com/`, with a non-empty owner, repository and branch free of '/'; there is no result exactly when the text is not a GitHub URL or matches none of the tree, blob and bare-repository forms |
| Download.BlobUrlParts | download_manager.py:18-43 | a `blob` URL gives the branch's zip URL and an empty sub-folder |
| Download.Subfolder | download_manager.py:62-63 | a non-empty subfolder comes only from a tree URL |
| Download.GitHubFolderToZipUrl | download_manager.py:46-68 | a result exists exactly when the URL parses; the archive URL is `https://github.com/{owner}/{repo}/archive/refs/heads/{branch}.zip`; a non-empty subfolder comes only from a tree URL |
| Download.TreeUrlParts | download_manager.py:29-31 | `https://github.com/o/r/tree/b/f` gives the archive URL of (o, r, b) and the subfolder f (lines 56-68 for the conversion) |
| Download.BareUrlParts | download_manager.py:39-41 | a bare repository URL, with or without a trailing '/', gives branch 'main' and the subfolder '' (lines 56-68 for the conversion) |
| Download.ExtractFolderName | download_manager.py:71-89 | `extract_folder_name_from_url` always returns a string; the None branch is never taken |
| Download.FolderNameIsLastSegment | download_manager.py:81-87 | the name holds no '/', ends the URL with its trailing slashes stripped, follows a '/' when it is not the whole text, and is empty exactly when the URL is nothing but slashes |
| Download.SplitLast | download_manager.py:85-87 | the last piece of a '/'-split is the text after the last separator |
| Download.DownloadManager.IsBusy | download_manager.py:290-292 | busy exactly when some download or extraction is tracked |
| Download.DownloadManager.DownloadFile | download_manager.py:222-250 | the URL joins the tracked downloads, the extractions are unchanged, and the manager is busy |
| Download.DownloadManager.DownloadFinished | download_manager.py:243-245 | the cleanup removes only that URL from the tracked downloads |
| Download.DownloadManager.ExtractZip | download_manager.py:252-280 | the archive joins the tracked extractions, the downloads are unchanged, and the manager is busy |
| Download.DownloadManager.ExtractFinished | download_manager.py:273-275 | the cleanup removes only that archive from the tracked extractions |
| Download.DownloadManager.constructor | download_manager.py:217-220 | nothing is tracked, so the manager is not busy |
| Tiles.KeysDistinct | quickpaint/core/brush.py:43-77 | the 13 terrain keys and the 12 slope keys have no repeats, and no name is both a terrain position and a slope type |
| Tiles.TerrainName | quickpaint/core/brush.py:43-57 | each terrain position names one of the brush's 13 terrain keys |
| Tiles.TerrainNamesDistinct | quickpaint/core/brush.py:43-57 | different positions have different keys |
| Engine.Cleared | quickpaint/core/engine.py:127-155 | `reset` empties the stroke, the outline and the committed slopes, leaves slope mode with no anchor, preview or exit restriction, unlocks the direction and clears the dampening axis, and keeps the existing tiles |
| Engine.WithDirection | quickpaint/core/engine.py:1014-1036 | the direction is locked with the initial heading recorded; the stroke paints ground/left exactly when it starts rightwards or, when it is not horizontal, does not start downwards, and ceiling/right otherwise; nothing else in the session changes |
| Engine.SlotIndex | quickpaint/core/engine.py:206 | the tileset index is the digit of "Pa0".."Pa3" and 0 for any other slot |
| Engine.PaintingEngine.constructor | quickpaint/core/engine.py:174-200 | idle, deferred mode, a reset session, no brush, tileset 0, layer 1, an empty object database, no empty slope regions, dampening factor 2 |
| Engine.PaintingEngine.UpdateObjectDatabase | quickpaint/core/engine.py:671-684 | the database and the stroke's tile map both become the given map; given regions replace the empty slope regions and none keeps them; the settings are kept |
| Engine.PaintingEngine.SetEmptySlopeRegions | quickpaint/core/engine.py:686-693 | the regions are replaced and nothing else changes |
| Engine.PaintingEngine.IsInEmptySlopeRegion | quickpaint/core/engine.py:695-697 | true exactly when the key is one of the empty slope regions |
| Engine.PaintingEngine.AddToObjectDatabase | quickpaint/core/engine.py:699-702 | the key takes the id in both the database and the stroke's tile map; every other entry and setting is kept |
| Engine.PaintingEngine.RemoveFromObjectDatabase | quickpaint/core/engine.py:704-708 | the key is absent from both maps afterwards, whether or not it was present; every other entry and setting is kept |
| Engine.PaintingEngine.SetBrush | quickpaint/core/engine.py:202-209 | the brush is stored; a brush's slot decides the tileset index (no brush keeps the old index); nothing else changes |
| Engine.PaintingEngine.SetLayer | quickpaint/core/engine.py:211-213 | the layer is clamped into 0..2, a layer in range is kept as given; nothing else changes |
| Engine.PaintingEngine.SetDampeningFactor | quickpaint/core/engine.py:223-234 | the factor is clamped into 0..10, a factor in range is kept as given; nothing else changes |
| Engine.PaintingEngine.UpdateOutline | quickpaint/core/engine.py:1241-1398 | the session's outline becomes `WithOutline` of the old session (see `Engine.RefreshedOutline`) and nothing else changes |
| Engine.PaintingEngine.SuggestDefaultSlope | quickpaint/core/engine.py:608-669 | the new session is `WithSuggestion` of the old one: with an anchor, an enabled default slope replaces the preview (see `SlopeMode.SuggestionFacts`) |
| Engine.PaintingEngine.ToggleSlopeMode | quickpaint/core/engine.py:236-336 | the result and the new session are `Toggled` of the old session (see `Engine.ToggleFacts`) |
| Engine.PaintingEngine.UpdateSlopePreview | quickpaint/core/engine.py:338-511 | the new session is `Previewed` of the old one (see `Engine.PreviewedFacts`) |
| Engine.PaintingEngine.CommitSlope | quickpaint/core/engine.py:513-606 | the result and the new session are `Committed` of the old session (see `Engine.CommitFacts`) |
| Engine.PaintingEngine.StartPainting | quickpaint/core/engine.py:714-746 | refused without a brush; otherwise the session restarts at the position over the object database, the state becomes the mode's painting state, and in deferred mode the outline is refreshed |
| Engine.PaintingEngine.CancelPainting | quickpaint/core/engine.py:1116-1128 | idle, with a reset session that keeps the existing tiles |
| Engine.PaintingEngine.BuildValidPath | quickpaint/core/engine.py:805-1012 | the cells returned and the new session are `PathFor` of the old session (see `Engine.PathForFacts`) |
| Engine.PaintingEngine.SlopeCells | quickpaint/core/engine.py:826-845 | the blocked cells are the footprints of the committed slopes and, in slope mode, of the preview |
| Engine.PaintingEngine.PassExitGate | quickpaint/core/engine.py:860-872 | the slope-exit restriction and the walk beyond it compute `PathFor` |
| Engine.PaintingEngine.WalkFromEnd | quickpaint/core/engine.py:889-1010 | the dampening check and the walk compute `WalkedFrom` |
| Engine.PaintingEngine.Advance | quickpaint/core/engine.py:764-782 | the positions move on and the first movement fixes the direction (`Advanced`) |
| Engine.PaintingEngine.UpdatePainting | quickpaint/core/engine.py:748-803 | the result and the new session are `Painted` of the old session (see `Engine.PaintTracksPositions` and `Engine.PaintKeepsStrokeClean`) |
| Engine.FootprintCells | quickpaint/core/engine.py:826-845 | a cell is in a slope's footprint set exactly when the slope covers it |
| Engine.FootprintsMeaning | quickpaint/core/engine.py:826-845 | the blocked cells are exactly the cells some slope's footprint covers |
| Engine.StartedOutline | quickpaint/core/engine.py:714-746 | a deferred `start_painting` refreshes the outline to the start cell alone, whatever the object database |
| Engine.RefreshedOutline | quickpaint/core/engine.py:1241-1398 | after `_update_outline` the outline holds exactly the stroke's cells and the slopes' origins, its types are keyed by exactly those positions, and a preview's origin is on it |
| Engine.WithOutlineConsistent | quickpaint/core/engine.py:1241-1398 | the outline refresh keeps the outline types keyed by exactly the outline |
| Engine.ToggleKeepsOutline | quickpaint/core/engine.py:236-336 | toggling slope mode keeps the outline types keyed by exactly the outline |
| Engine.PreviewKeepsOutline | quickpaint/core/engine.py:338-511 | so does a preview update |
| Engine.CommitKeepsOutline | quickpaint/core/engine.py:513-606 | so does a commit: the inner-corner conversion only retypes a position already on the outline |
| Engine.StrokeOperationsKeepOutline | quickpaint/core/engine.py:714-803 | starting, cancelling and painting keep the outline types keyed by exactly the outline |
| Engine.PathForFrame | quickpaint/core/engine.py:805-1012 | the path builder changes only the slope-exit restriction and the dampening state |
| Engine.PathForWalks | quickpaint/core/engine.py:851-872 | past the slope-exit restriction, the path builder clears the restriction and walks from the stroke's end, avoiding every footprint |
| Engine.WalkedFromFacts | quickpaint/core/engine.py:920-1010 | each walked cell is a cardinal neighbour of the one before (of the start for the first, which is not the cell just left), the walk is no longer than the distance to the target, and no cell is on the stroke, blocked, or a repeat |
| Engine.PathForFacts | quickpaint/core/engine.py:805-1012 | from an empty stroke only the target; otherwise cardinal steps from the stroke's end (never back to the cell just left), at most the distance to the target, never a stroke cell, a footprint cell or a repeat; a target the exit restriction refuses yields [] and keeps the restriction, and a walk that moves clears it (lines 826-872) |
| Engine.CleanAppend | quickpaint/core/engine.py:1001-1004 | appending a walk that starts next to the stroke's end, steps cardinally and avoids the stroke keeps the stroke free of repeats and of non-cardinal steps |
| Engine.ExtendKeepsClean | quickpaint/core/engine.py:792-793 | appending what the path builder returns keeps the stroke clean, only extends it, and the new cells avoid every slope |
| Engine.PaintKeepsStrokeClean | quickpaint/core/engine.py:748-803 | `update_painting` only ever appends to the stroke, keeps it clean, and the appended cells avoid every slope |
| Engine.PaintTracksPositions | quickpaint/core/engine.py:748-782 | refused when idle or without a brush, nothing changes for a repeated position; otherwise the positions advance, the first movement fixes the initial direction, later movements keep it, and the committed slopes and slope mode stay |
| Engine.ToggleFacts | quickpaint/core/engine.py:236-336 | entering returns True, anchors at the stroke's end and records the stroke's length, offering only an enabled slope; leaving returns False, cuts the stroke to the recorded length and appends the anchor, sets the exit restriction from the last committed slope (`ExitDirection`) and clears anchor and preview; the committed slopes are untouched |
| Engine.ToggleTwiceRepeatsEnd | quickpaint/core/engine.py:257-326 | entering and leaving slope mode without a commit appends the stroke's end a second time, so the stroke then holds a repeated cell |
| Engine.PreviewedFacts | quickpaint/core/engine.py:338-511 | the stroke, the anchor and the committed slopes stay; outside slope mode or without an anchor nothing changes; a preview is an enabled slope, top exactly when the mouse is right of the anchor, left exactly when above it, placed by `OriginFor`; a mouse on the anchor gives no preview |
| Engine.CommitFacts | quickpaint/core/engine.py:513-606 | succeeds exactly in slope mode with an enabled preview; then exactly that slope is appended to the committed ones, the anchor moves to the slope's far end (`AnchorAfter`), slope mode stays on, the stroke is untouched and only an enabled slope is offered next; otherwise nothing changes |
| Engine.SameOutline | quickpaint/core/engine.py:1241-1398 | the outline refresh depends only on the start, the stroke, the slopes and the initial direction |
| Engine.CommitDiscardsInnerCorner | quickpaint/core/engine.py:580-603 | the inner-corner type `commit_slope` writes at the old anchor is overwritten by the outline refresh at its end whenever a stroke is under way |
| Engine.SuggestionAgrees | quickpaint/core/engine.py:608-669 | the default suggestion reads neither the outline nor the pending inner corner, and leaves the stroke and the direction alone |
| Engine.PaintingEngine.FinalizeDeferredPainting | quickpaint/core/engine.py:1741-1822 | the result is the slope objects of the first pass (`Finalize.FirstPass`) followed by a merge of the terrain cells it collected (`Merge.IsMergeOf`); the stroke's placed keys gain the merged objects' cells and its tile map records their ids there (see `Finalize.OutlineFullyPlaced`, `Finalize.TerrainRecorded`); the settings are kept |
| Events.MouseEventHandler.constructor | quickpaint/ui/events.py:43-74 | idle, no brush, "SmartPaint" mode, deferred (not immediate), no positions, no start object, an empty stroke and outline, no operations |
| Events.MouseEventHandler.SetBrushTo | quickpaint/ui/events.py:76-87 | the brush is set and forwarded to the engine, the start object is dropped and the handler is idle; the stroke and the positions stay |
| Events.MouseEventHandler.SetLayerTo | quickpaint/ui/events.py:98-105 | the layer is forwarded to the engine and nothing else changes |
| Events.MouseEventHandler.SetImmediate | quickpaint/ui/events.py:107-116 | the immediate flag is stored and forwarded to the engine; nothing else changes |
| Events.MouseEventHandler.Cancel | quickpaint/ui/events.py:363-370 | idle with an empty stroke, no operations, an empty outline and no start object; the engine's painting is cancelled |
| Events.MouseEventHandler.ResetStartObject | quickpaint/ui/events.py:372-375 | the start object is dropped and the engine's painting cancelled; the engine's `on_outline_updated([])` callback empties the handler's outline; nothing else changes |
| Events.MouseEventHandler.OnMousePress | quickpaint/ui/events.py:150-216 | without a brush nothing is handled or changed; in slope mode the press is swallowed; in deferred mode another button cancels a pending path (and is otherwise ignored); a draw click restarts the stroke at the position and starts painting (immediate), sets the start object (first deferred click) or finishes the path there and starts again from it (later deferred clicks); an immediate click leaves the outline alone, while after a deferred click the engine's outline callback has set it to the start cell alone; the stroke never holds a cell twice |
| Events.MouseEventHandler.OnKeyPress | quickpaint/ui/events.py:218-247 | Escape cancels a pending deferred path; F1 while deferred toggles the engine's slope mode and then raises TypeError at the argument-less `outline_updated.emit()`; every other key, and an Escape or F1 that does not apply, is unhandled and changes nothing |
| Events.MouseEventHandler.OnMouseMove | quickpaint/ui/events.py:249-286 | handled exactly when painting with a brush; in slope mode the engine's preview is updated and then TypeError is raised at the argument-less emit; otherwise a new cell is appended to the stroke (a cell already on it is not) and the engine is updated |
| Events.MouseEventHandler.OnMouseRelease | quickpaint/ui/events.py:288-329 | handled exactly for a draw-button release while painting with a brush; in slope mode it commits the preview and raises TypeError at the argument-less emit when the commit succeeded; an immediate stroke is finished and the handler goes idle; a deferred release changes nothing |
| Events.MouseEventHandler.IsPainting | quickpaint/ui/events.py:359-361 | painting while the handler is not idle or the engine says it is painting |
| Events.RectangleOutline | quickpaint/ui/events.py:332-357 | the cells returned are exactly the border cells of the rectangle spanned by the two corners, each once |
| Fill.FloodFill | quickpaint/core/fill_engine.py:302-352 | every filled cell is a free cell of the area, all of them 4-connected to the start through filled cells; with a limit at most that many are filled and an interruption means exactly the limit was reached; without one it is never interrupted; an uninterrupted fill is closed (no free area cell next to a filled one is left out); the start is filled exactly when it is a free area cell and the limit is not 0 |
| Fill.EmptyQueueClosed | quickpaint/core/fill_engine.py:326 | once the queue runs dry the fill is closed and the start is filled exactly when it is a free area cell |
| Fill.Visit | quickpaint/core/fill_engine.py:332-350 | one round of the search keeps its invariant (filled cells free, connected and closed up to the queue), fills at most one cell and makes progress |
| Fill.OrderSnocConnected | quickpaint/core/fill_engine.py:343-350 | filling a cell next to an already filled one keeps every filled cell connected to the start |
| Fill.PushNeighbours | quickpaint/core/fill_engine.py:346-350 | the four neighbours become seen; exactly the ones not seen before are queued, behind the old queue, each next to the cell |
| Fill.FloodZone | quickpaint/core/fill_engine.py:180-185 | the flood fill over the zone `[x, x+w) × [y, y+h)` has all the `Fill.FloodFill` guarantees |
| Fill.AddOverpaint | quickpaint/core/fill_engine.py:354-447 | the input is kept, an empty input stays empty, and every added cell lies outside the zone |
| Fill.OverpaintCells | quickpaint/core/fill_engine.py:354-447 | a cell is in the overpainted set exactly when it was filled, or lies up to four cells beyond a zone edge whose cell in its row or column is filled, or lies in the 4×4 block beyond a filled zone corner |
| Fill.ColumnRuns | quickpaint/core/fill_engine.py:476-510 | the scan of a sorted column yields maximal runs of consecutive values, top to bottom with a gap between each two, covering every value; none for an empty column |
| Fill.RunsFacts | quickpaint/core/fill_engine.py:476-510 | the runs of a sorted column are maximal, separated, cover it, and are empty only for an empty column |
| Fill.ScanFacts | quickpaint/core/fill_engine.py:482-510 | from an open run onwards, the scan emits maximal, separated runs that cover the rest of the column |
| Fill.SortedColumn | quickpaint/core/fill_engine.py:464-473 | a column's y values, in strictly increasing order, exactly those of the set |
| Fill.OutsideZone | quickpaint/core/fill_engine.py:161 | the 200×200 zone searched outside every zone holds the click |
| Fill.LimitedFill | quickpaint/core/fill_engine.py:176-229 | a fill limited to 2048 cells: nothing found leaves everything as it was; an interrupted fill waits for confirmation inside a zone and is dropped (back to idle) outside; a complete fill is previewed, with overpaint inside a zone and without outside |
| Fill.FullFill | quickpaint/core/fill_engine.py:269-280 | the unlimited fill, closed and connected, with its overpaint; empty exactly when nothing was filled |
| Fill.FillEngine.constructor | quickpaint/core/fill_engine.py:62-79 | idle with no cells, no object, tileset 0, layer 1, no zone and no start |
| Fill.FillEngine.SetFillObject | quickpaint/core/fill_engine.py:89-100 | the tileset, object and layer are stored as given; nothing else changes |
| Fill.FillEngine.SetLayer | quickpaint/core/fill_engine.py:102-109 | the layer is clamped into 0..2; nothing else changes |
| Fill.FillEngine.StartFill | quickpaint/core/fill_engine.py:127-229 | outside any zone without permission: refused with the outside-zone flag and idle; an occupied start: nothing and idle; otherwise the zone (the click's or the 200×200 one) and the start are stored and the limited fill's outcome decides cells, result and state |
| Fill.FillEngine.ConfirmFill | quickpaint/core/fill_engine.py:231-249 | while previewing or waiting, hands over the previewed cells and returns to idle with none; in any other state hands over nothing and changes nothing |
| Fill.FillEngine.ContinueFill | quickpaint/core/fill_engine.py:251-293 | only while waiting with a stored zone and start: the unlimited fill with overpaint becomes the preview (staying in waiting when it found nothing); otherwise an empty result and nothing changes |
| Fill.FillEngine.CancelFill | quickpaint/core/fill_engine.py:295-300 | no cells and idle; the object, the zone and the start stay |
| Fill.FillEngine.GetFillPlacements | quickpaint/core/fill_engine.py:449-515 | nothing without an object id (or with id 0); otherwise width-1 placements of the object, each a maximal vertical run of filled cells, together covering every filled cell, no two overlapping |
| Fill.VerticalSlices | quickpaint/core/fill_engine.py:464-512 | every placement is a width-1 maximal vertical run of the fill, every filled cell is covered, and no two placements overlap |
| Fill.ColumnPlacements | quickpaint/core/fill_engine.py:488-510 | one width-1 placement per run of the column, at the run's start with the run's height |
| Fill.ColumnOf | quickpaint/core/fill_engine.py:464-468 | the y values of column `x` are exactly those of the fill's cells in that column |
| GameDef.DataPath | gamedef.py:278-313 | a stock data file lies under `reggiedata/` |
| GameDef.EmptyDefinition | gamedef.py:278-313 | the stock definition: not custom, no base, no plugins, every listed file has a path and none is a patch |
| GameDef.EmptyDefinitionFiles | gamedef.py:278-313 | in the stock definition `file` gives a listed file's own path and `recursiveFiles` lists just that path, not as a patch, named after the definition |
| GameDef.NewDefinition | gamedef.py:260-276 | a None-like name (None, 'None', '', True, False, 0 and 1, which equals True) gives the stock definition; any other name is loaded from its patch |
| GameDef.Visited | gamedef.py:709-743 | the definitions `recursiveFiles` walks start at this one and all list the name |
| GameDef.RecursiveFilesArePaths | gamedef.py:709-743 | `recursiveFiles` lists exactly the set paths of the visited definitions, base first, and reports a patch exactly when a base was visited |
| GameDef.File | gamedef.py:745-755 | the definition's own path when it has one, nothing for a name it does not list |
| GameDef.FileIsLastRecursiveFile | gamedef.py:709-755 | along a chain of patch entries, `file` returns the last path `recursiveFiles` lists |
| GameDef.ParamsOf | gamedef.py:460-464 | the params hold exactly the names of the `<param>` pairs, none for an element without any |
| GameDef.ValueOf | gamedef.py:456-466 | an enabled element stores `True` exactly when it has no params |
| GameDef.LastNamed | gamedef.py:454-469 | the last element naming the plugin, or none exactly when no element names it |
| GameDef.LastNamedCons | gamedef.py:454-469 | the last element naming a plugin in `[p] + ps` is the last in `ps`, else `p` when it names it |
| GameDef.ApplyPluginsLastWins | gamedef.py:436-478 | each plugin's final state is decided by the last element naming it (enabled: its value; disabled: removed); a plugin no element names keeps its inherited value |
| GameDef.LoadPlugins | gamedef.py:436-478 | the plugins are the base's (or none) with every element of plugins.xml applied in order; a missing or unreadable file applies none |
| GameDef.ApplyElement | gamedef.py:454-469 | one element: an enabled one stores its value, a disabled one removes its name |
| GameDef.ReadParams | gamedef.py:460-464 | the `<param>` loop builds the params dict, later pairs overriding earlier ones; empty exactly when there are none |
| GameDef.GamePath | gamedef.py:610-650 | the stock game reads the global key; a custom definition its own key as text, falling back to the global one while unset |
| GameDef.LastLevel | gamedef.py:680-694 | like the game paths, but the per-definition value is returned as stored |
| GameDef.CustomRun | gamedef.py:662-678 | the custom definitions `GetTexturePaths` visits: all custom, ending at a custom definition, none for the stock game |
| GameDef.TexturePaths | gamedef.py:662-678 | the global texture path first and, for a custom definition, its own setting last |
| GameDef.TexturePathsFollowChain | gamedef.py:662-678 | the texture paths are the global path followed by one setting per definition of the custom run, root first |
| GameDef.SetGamePath | gamedef.py:626-660 | the path is written through the settings store, normalised as written, under the global key or, for a custom definition, its own key |
| GameDef.SetLastLevel | gamedef.py:696-707 | None, True, False, 0, 1, '' and their text forms are ignored; any other value is written under the global or per-definition key |
| GameDef.StoredGamePathReadBack | gamedef.py:610-660 | a stored game path reads back through the store (as text for a custom definition) |
| Integration.LineStep | quickpaint/ui/reggie_integration.py:836-860 | one round of the line walk keeps the error bounds, always advances along the longer axis (both when they are equal) and never passes the end |
| Integration.Advance | quickpaint/ui/reggie_integration.py:851-858 | one round of the line walk moves x and y each by zero or one unit toward the end, at least one of them, and the longer axis always |
| Integration.InterpolatePositions | quickpaint/ui/reggie_integration.py:836-860 | the line from start to end: exactly one cell per step along the longer axis plus one, first the start and last the end, every step moving each coordinate by 0 or one unit toward the end |
| Integration.AutoFillZone | quickpaint/ui/reggie_integration.py:356-385 | the zone under the stroke when there is one, else a 200×200 zone holding the representative cell |
| Integration.EdgeOf | quickpaint/ui/reggie_integration.py:465-476 | a dequeued cell breaks no side exactly when it is inside the zone, and the side named is one it really lies beyond |
| Integration.AutoFillRegion | quickpaint/ui/reggie_integration.py:447-489 | the cells filled are free zone cells connected to the start; the search gives up once more than 5000 are filled; a finished search is closed, records every side a neighbour of a filled cell (or the start) breaks, and records only sides such a cell broke |
| Integration.AutoFillSearch | quickpaint/ui/reggie_integration.py:457-489 | the search loop ends with its invariant, its record of broken sides, at most 5001 filled cells, and an empty queue unless it gave up |
| Integration.TrackStep | quickpaint/ui/reggie_integration.py:462-476 | dequeuing a cell and recording the side it breaks keeps the record of broken sides |
| Integration.InvalidFill | quickpaint/ui/reggie_integration.py:499-516 | a fill is invalid exactly when it broke a side of the zone that no occupied cell reaches (first or last column or row) |
| Integration.EdgeByEdge | quickpaint/ui/reggie_integration.py:509-516 | the four side-by-side tests say exactly that some broken side is not reached by terrain |
| Integration.AcceptRegion | quickpaint/ui/reggie_integration.py:491-528 | a region is kept exactly when the search finished, filled something and, inside a zone, every side it broke is reached by terrain; it is the fill, grown by the overpaint only outside the zone and only when a side was broken inside a zone |
| Integration.AutoFillCandidate | quickpaint/ui/reggie_integration.py:439-532 | a kept region holds the start and the closed, non-empty fill, adds nothing inside the zone, and the start is filled exactly when it is a free zone cell |
| Integration.AutoFillCandidates | quickpaint/ui/reggie_integration.py:437-532 | each painted region comes from its own candidate, which it holds and which no earlier region held; everything painted is the union of the regions, and no region covers an occupied zone cell |
| Integration.SliceGroup | quickpaint/ui/reggie_integration.py:568-573 | the x values of a group are exactly those of the slices with that top row and height |
| Integration.SliceKeys | quickpaint/ui/reggie_integration.py:568-573 | the group keys are exactly the (top row, height) pairs of the slices |
| Integration.RowPlacements | quickpaint/ui/reggie_integration.py:576-595 | one rectangle per run of consecutive x values of a group, spanning the run |
| Integration.MergeSlices | quickpaint/ui/reggie_integration.py:568-595 | the merged rectangles cover exactly the cells of the slices, never overlap, and carry the fill object, tileset and layer |
| Integration.MergedCells | quickpaint/ui/reggie_integration.py:568-595 | once every group is merged, the rectangles cover exactly the cells of the slices |
| Integration.GroupsApart | quickpaint/ui/reggie_integration.py:568-595 | rectangles of different groups never overlap |
| Integration.OverlapSameGroup | quickpaint/ui/reggie_integration.py:568-595 | overlapping rectangles come from the same group |
| Integration.RegionPlacements | quickpaint/ui/reggie_integration.py:535-607 | the objects created for a region cover exactly its cells, never overlap, and are all the fill object on its layer |
| Integration.Footprint | quickpaint/ui/reggie_integration.py:1641-1643 | the cells a `w`×`h` object at a position covers, exactly |
| Integration.DecoFits | quickpaint/ui/reggie_integration.py:1638-1663 | a position fits exactly when every cell of the footprint is a fill cell, not yet taken, and not a deco or foreign tile |
| Integration.FootprintTaken | quickpaint/ui/reggie_integration.py:1697-1704 | the overlap test holds exactly when the footprint meets a taken cell |
| Integration.ValidDecoPositions | quickpaint/ui/reggie_integration.py:1635-1666 | the valid positions are exactly the fill positions where the whole object fits |
| Integration.DecoQuota | quickpaint/ui/reggie_integration.py:1678-1683 | at least one object for a positive probability, none for zero, never more than the valid positions times the probability over the area (beyond the forced one), and never more than the valid positions |
| Integration.PlaceDeco | quickpaint/ui/reggie_integration.py:1690-1722 | at most the quota of objects, each at a valid position, none meeting a cell taken before or another placed object; the taken cells grow by exactly the placed footprints; below the quota every position was placed, failed to create, or met a taken cell |
| Integration.CycleDecoContainer | quickpaint/ui/reggie_integration.py:2026-2043 | nothing without containers; otherwise the container after the first selected one (wrapping round), or the first when none is selected |
| Merge.RunPlacement | quickpaint/core/engine.py:1886-1923 | the placement of a run covers exactly the run's cells |
| Merge.RunStart | quickpaint/core/engine.py:1862-1877 | walking back from a tile stops at the first cell of its run: every cell from there to the tile holds the same (type, id), the cell before does not |
| Merge.ExtendRun | quickpaint/core/engine.py:1886-1913 | walking forward from the run's first cell collects the whole run: the same (type, id) up to its length, something else just after, and all its cells marked processed |
| Merge.StartUnprocessed | quickpaint/core/engine.py:1880-1883 | when a tile is unprocessed, so is the first cell of its run: the skip at lines 1880-1883 never fires |
| Merge.RunUnprocessed | quickpaint/core/engine.py:1880-1883 | an unprocessed run start means the whole run is unprocessed |
| Merge.GoodRun | quickpaint/core/engine.py:1886-1923 | a maximal run of equal tiles becomes a well-shaped placement of its id on the tileset and layer |
| Merge.RunClosed | quickpaint/core/engine.py:1886-1913 | marking a whole maximal run processed keeps the processed cells closed under runs |
| Merge.OwnedCovered | quickpaint/core/engine.py:1850-1938 | when each tile has an owning placement, every tile is covered |
| Merge.OwnedDisjoint | quickpaint/core/engine.py:1850-1938 | when a placement covers only the cells it owns, no cell is covered twice |
| Merge.MergeRun | quickpaint/core/engine.py:1857-1923 | merging the run through an unprocessed mergeable tile adds one placement, keeps the merge invariant and processes the tile |
| Merge.Visit | quickpaint/core/engine.py:1850-1938 | one round of the loop keeps the merge invariant and leaves the tile processed |
| Merge.VisitAll | quickpaint/core/engine.py:1850-1938 | the loop over the tiles keeps the merge invariant and processes every tile |
| Merge.MergeConsecutiveTiles | quickpaint/core/engine.py:1824-1940 | every placement carries its origin tile's id on the tileset and layer; top, bottom and center runs are one row high, left and right runs one column wide, every other type 1×1; each covers only tiles of the same (type, id), and a run is maximal; every tile is covered and no tile twice |
| Merge.TypeOf | quickpaint/core/engine.py:2115-2129 | no brush gives None; with a brush, a found type is a terrain or slope key holding the id, and None means no terrain or slope key holds it |
| Merge.TreatmentOf | quickpaint/core/engine.py:1966-1984 | slope types and unknown ids are kept as they are; top, bottom, left, right and center are expanded cell by cell; every other type keeps only its origin cell |
| Merge.MergeNotSlope | quickpaint/core/engine.py:1968-1971 | no mergeable type is empty or a slope type, so the expanded branch never steals a slope |
| Merge.Kept | quickpaint/core/engine.py:1968-1984 | the kept placements are some of the input, in order, each one to be kept |
| Merge.CellMap | quickpaint/core/engine.py:1973-1976 | the cells of a placement, all mapped to the same tile |
| Merge.ExpandedFromPlacements | quickpaint/core/engine.py:1963-1984 | every expanded cell comes from a placement that is not kept |
| Merge.Put | quickpaint/core/engine.py:1976 | the tile map gains the cell and the list of its keys stays exact |
| Merge.ExpandRow | quickpaint/core/engine.py:1974-1976 | one row of a placement is added to the tile map |
| Merge.ExpandInto | quickpaint/core/engine.py:1973-1976 | the tile map gains every cell of the placement, mapped to its tile |
| Merge.RemergePlacements | quickpaint/core/engine.py:1942-1990 | no placements give none; otherwise the kept placements come first, in order, followed by a merge (in the sense of `Merge.MergeConsecutiveTiles`) of the expanded tiles |
| Modes.InitialDirection | quickpaint/core/modes.py:28-55 | horizontal exactly when the x movement is strictly larger; left-to-right/right-to-left and top-to-bottom follow the sign of the movement; ties and no movement fall to the vertical branch, where dy ≤ 0 gives bottom-to-top |
| Modes.NoMovementIsBottomToTop | quickpaint/core/modes.py:40-55 | no movement at all gives bottom-to-top |
| Modes.DefaultPaintingDirection | quickpaint/core/modes.py:58-73 | never AUTO: ground/left for the two names listed, ceiling/right for every other string |
| Modes.DefaultForStroke | quickpaint/core/modes.py:28-73 | a stroke paints ground/left exactly when it starts rightwards or, when not horizontal, does not start downwards |
| Modes.ShouldPaintTerrain | quickpaint/core/modes.py:76-116 | every position under AUTO; never center or an inner corner otherwise; under ground/left exactly the top family and left, plus the bottom family with terrain above |
| Modes.HalfTurn | quickpaint/core/modes.py:100-116 | turning a position upside down swaps the top and the bottom families |
| Modes.HalfTurnInvolution | quickpaint/core/modes.py:100-116 | turning twice gives the position back |
| Modes.CeilingMirrorsGround | quickpaint/core/modes.py:100-116 | ceiling/right is the mirror image of ground/left: it accepts a position exactly when ground/left accepts its half turn with above and below swapped |
| Modes.SmartAlongSnoc | quickpaint/core/modes.py:144-166 | smart painting a path and then one more point is one more step |
| Modes.PaintSmartPath | quickpaint/core/modes.py:119-168 | the operations and the tile map are those of smart painting the path point by point from the existing tiles, with the auto-tile table as written; an unassigned slot skips the point |
| Modes.SmartPaintPoint | quickpaint/core/modes.py:146-166 | one point: auto-tile it, skip it when the direction filter rejects it or the brush has no id, else emit it and record it in the tile map |
| Modes.SmartAlongAppends | quickpaint/core/modes.py:144-166 | smart painting only appends, at most one operation per point, each on the layer with an id the brush holds, and every emitted cell is in the tile map afterwards |
| Modes.SmartAutoIsPaintPath | quickpaint/core/modes.py:119-168 | under AUTO, with every slot holding a positive id, every slot is assigned, `paint_path` does not raise, and smart painting gives its result |
| Modes.EraseOps | quickpaint/core/modes.py:348-355 | one id-0 operation per cell on the layer, in order |
| Modes.EraseOpsSnoc | quickpaint/core/modes.py:348-355 | one more cell adds one more erase operation at the end |
| Modes.ErasePath | quickpaint/core/modes.py:334-355 | exactly one id-0 operation per path point, in order |
| Modes.EraseRectangle | quickpaint/core/modes.py:358-388 | the erase operations of the rectangle's cells, row by row |
| Modes.EraseRow | quickpaint/core/modes.py:384-386 | one row of erase operations is appended |
| Modes.EraseRectangleCells | quickpaint/core/modes.py:358-388 | width × height id-0 operations on the layer, one for each cell of the normalised rectangle and none twice |
| Outline.CornerTableKeys | quickpaint/core/engine.py:1444-1470 | the corner table answers exactly for the sixteen listed (edge, old heading, new heading) keys, each a quarter turn, and every answer is an outer or an inner corner |
| Outline.EdgeTableTurns | quickpaint/core/engine.py:1485-1511 | on a listed key the edge switches between horizontal and vertical; on any other key the edge is kept |
| Outline.TurnKeepsRightHand | quickpaint/core/engine.py:1444-1511 | a quarter turn from the right-hand edge of a heading is a listed key and leads to the right-hand edge of the new heading |
| Outline.TablesHalfTurnSymmetric | quickpaint/core/engine.py:1444-1511 | both tables commute with turning the picture upside down, on every key except a left edge drawn downwards and a right edge drawn upwards |
| Outline.LeftDownwardRowsSwapped | quickpaint/core/engine.py:1460-1467 | on those excluded keys the symmetry fails: the left-downward corner rows hold the half-turned values of the right-upward rows, and their edges disagree |
| Outline.InitialEdge | quickpaint/core/engine.py:1285-1296 | a stroke with an initial direction starts on the edge on its right-hand side (top for left-to-right, and so on) |
| Outline.MoveHeading | quickpaint/core/engine.py:1350-1365 | a real move always has a heading; no move keeps the current one |
| Outline.Origins | quickpaint/core/engine.py:1329-1333 | one outline position per slope segment |
| Outline.OriginsFacts | quickpaint/core/engine.py:1329-1333 | the slope origins are in order and are exactly the typed positions before the path loop |
| Outline.BuildOutline | quickpaint/core/engine.py:1241-1398 | the outline and its types are those of the slope origins followed by the path walk, turn by turn |
| Outline.StepGrows | quickpaint/core/engine.py:1386-1390 | one path position only appends to the outline, and only a position not yet in it |
| Outline.WalkOutline | quickpaint/core/engine.py:1338-1390 | corners and edges never change the outline itself: it is the origins followed by the first occurrence of each new path position |
| Outline.GrownMembers | quickpaint/core/engine.py:1389-1390 | the grown outline holds exactly what it held plus the positions walked |
| Outline.GrownPrefix | quickpaint/core/engine.py:1389-1390 | growing keeps what was there as a prefix |
| Outline.GrownTail | quickpaint/core/engine.py:1389-1390 | what growing adds has no repeats and nothing already there |
| Outline.WalkMembers | quickpaint/core/engine.py:1329-1390 | after `n` positions the outline holds the slope origins and the first `n` positions and nothing else |
| Outline.WalkPrefix | quickpaint/core/engine.py:1329-1390 | the outline starts with the slope origins |
| Outline.WalkTail | quickpaint/core/engine.py:1329-1390 | after the origins the outline has no repeat and no origin |
| Outline.TailGrows | quickpaint/core/engine.py:1389-1390 | appending a position the outline lacks keeps that tail free of repeats and origins |
| Outline.WalkTyped | quickpaint/core/engine.py:1329-1390 | the typed positions are exactly the outline's positions |
| Outline.OutlineCovers | quickpaint/core/engine.py:1241-1398 | the finished outline holds exactly the stroke positions and the slope origins, each with a type, origins first and then no repeats |
| Outline.NoReversal | quickpaint/core/engine.py:1350-1379 | two cardinal moves that do not return to their start never make a half turn |
| Outline.TurnRightHanded | quickpaint/core/engine.py:1367-1379 | a cardinal move that is no half turn keeps the edge on the right-hand side of travel and takes the move's heading |
| Outline.WalkRightHanded | quickpaint/core/engine.py:1338-1390 | along a stroke of cardinal moves that never step back, the edge stays on the right-hand side and the heading is that of the last move |
| Outline.StrokeTurnsHaveCorners | quickpaint/core/engine.py:1367-1379 | on such a stroke every change of heading finds a corner in the table, and never on the keys where the table is not symmetric |
| Outline.RightHandedCorner | quickpaint/core/engine.py:1444-1470 | from a right-handed state every quarter turn has a corner |
| Outline.StraightStroke | quickpaint/core/engine.py:1285-1390 | a stroke that keeps its initial heading is drawn entirely with the initial edge, apart from slope origins |
| Painter.DominantWalk | quickpaint/core/painter.py:77-86 | the walk along the dominant axis has one point per step plus one, runs from the start to the end, and advances one step on that axis and at most one on the other each time |
| Painter.MinorWalk | quickpaint/core/painter.py:79-86 | the error-driven minor coordinate starts and ends where the line does and never moves by more than one step, always in the same direction |
| Painter.LevelOrStepSnoc | quickpaint/core/painter.py:83-86 | a next minor coordinate that stays level or takes one step keeps the walk well formed |
| Painter.StepsAtEnd | quickpaint/core/painter.py:83-86 | the accumulated error forces exactly `dy` minor steps by the end of the line |
| Painter.Transpose | quickpaint/core/painter.py:87-96 | swapping the axes swaps every point's coordinates |
| Painter.TransposeSteps | quickpaint/core/painter.py:87-96 | the steep branch is the shallow one with the axes swapped |
| Painter.BresenhamLine | quickpaint/core/painter.py:54-98 | max(abs(dx), abs(dy)) + 1 points from the start to the end, each a single step on the dominant axis and at most one on the other, so the line has no gaps |
| Painter.GetNeighbors | quickpaint/core/painter.py:101-127 | each of the eight flags holds exactly when the tile at that offset on the same layer exists |
| Painter.MaskRoundTrip | quickpaint/core/painter.py:152-161 | the bit mask and the neighbour flags determine each other |
| Painter.UnmaskMask | quickpaint/core/painter.py:152-161 | reading the flags back from a mask gives the neighbourhood that built it |
| Painter.MaskUnmask | quickpaint/core/painter.py:152-161 | every mask is the mask of some neighbourhood |
| Painter.MaskIs | quickpaint/core/painter.py:152-161 | a neighbourhood has a mask exactly when it is that mask's flags |
| Painter.AutoTileEdges | quickpaint/core/painter.py:166-178 | a full neighbourhood is 'center', and an edge type means exactly that one edge neighbour |
| Painter.EdgeMasks | quickpaint/core/painter.py:170-178 | the edge types come from exactly the four single-edge masks |
| Painter.CornerMasksAsWritten | quickpaint/core/painter.py:180-198 | as written, each outer and inner corner type comes from exactly the masks of its branch |
| Painter.AutoTileInnerCorners | quickpaint/core/painter.py:190-198 | (corrected) an inner corner means every neighbour but that diagonal |
| Painter.InnerCornerMasks | quickpaint/core/painter.py:190-198 | (corrected) the inner corners come from exactly the four one-diagonal-missing masks |
| Painter.AutoTileOuterCorners | quickpaint/core/painter.py:180-188 | (corrected) an outer corner means its two edges, with or without the diagonal between them, and nothing else |
| Painter.OuterCornerMasks | quickpaint/core/painter.py:180-188 | (corrected) each outer corner comes from exactly its two masks |
| Painter.OuterCornersAsWritten | quickpaint/core/painter.py:181-184 | the table as written types the top, top-right and right neighbourhood 'center' and a left-less top row 'top_left' |
| Painter.InnerCornersAsWritten | quickpaint/core/painter.py:193-194 | the table as written calls a missing top edge 'inner_top_right' and a missing top-right diagonal 'center' |
| Painter.TopRightAsWritten | quickpaint/core/painter.py:183-184 | as written, a 'top_right' tile always has a left neighbour and never a right one |
| Painter.TerrainSlot | quickpaint/core/painter.py:219-225 | with every terrain slot assigned, auto-tiling a cell never raises |
| Painter.AutoTileId | quickpaint/core/painter.py:204-225 | the brush's id for the type the table as written gives, when that id is positive; no tile when it is not; and TypeError (`None > 0`) exactly when that terrain slot is unassigned |
| Painter.PaintAlongSnoc | quickpaint/core/painter.py:312-321 | painting a path and then one more point is one more step |
| Painter.PaintAlongRaises | quickpaint/core/painter.py:312-321 | painting raises exactly when some point, reached without raising, auto-tiles to an unassigned slot |
| Painter.CompleteNeverRaises | quickpaint/core/painter.py:312-321 | with every terrain slot assigned, painting any path never raises |
| Painter.RaisedStaysRaised | quickpaint/core/painter.py:312-321 | once painting has raised, painting further points does not undo it |
| Painter.PaintAlongAppends | quickpaint/core/painter.py:312-321 | painting only appends, at most one operation per point, each on the layer with a positive id |
| Painter.PaintAlongOrder | quickpaint/core/painter.py:312-321 | the painted positions are a subsequence of the path, in path order |
| Painter.OpPositionsSnoc | quickpaint/core/painter.py:316-318 | one more operation adds its position at the end |
| Painter.PaintAlongTiles | quickpaint/core/painter.py:312-321 | the tile map afterwards is the old one plus exactly the emitted cells, so each emitted tile is visible to the next point |
| Painter.PaintPath | quickpaint/core/painter.py:291-323 | the operations and tile map are those of auto-tiling the path point by point from the existing tiles, or the TypeError when a point reached auto-tiles to an unassigned slot |
| Painter.PaintSingleTile | quickpaint/core/painter.py:326-344 | one operation per path point, in order, all with the given id and layer |
| Painter.CreateRectangle | quickpaint/core/painter.py:347-384 | the operations of auto-tiling the normalised rectangle's cells row by row from an empty map, or the TypeError of the first cell whose slot is unassigned |
| Painter.PaintRect | quickpaint/core/painter.py:374-382 | the nested loops paint the rectangle's cells row by row, stopping at the TypeError |
| Painter.PaintRow | quickpaint/core/painter.py:375-382 | the inner loop paints one row left to right, stopping at the TypeError |
| Painter.PaintAlongConcat | quickpaint/core/painter.py:312-321 | painting two paths one after the other is painting their concatenation |
| Painter.PaintedPoints | quickpaint/core/painter.py:312-321 | from no operations, at most one operation per point, each at a path point, and distinct points give distinct operations |
| Painter.RectangleOps | quickpaint/core/painter.py:364-384 | at most (abs(x2−x1)+1)(abs(y2−y1)+1) operations, each inside the rectangle, no cell twice |
| Painter.RectCellsFacts | quickpaint/core/painter.py:364-375 | the rectangle's cell list has (abs(x2−x1)+1)(abs(y2−y1)+1) cells, exactly those inside it, none twice |
| PatchManager.DownloadStatus | patch_manager_dialog.py:1296-1326 | a custom status wins; an uninstalled patch shows 'Download'; an installed one with a missing catalog or installed version shows 'Installed' |
| PatchManager.FullModMeaning | patch_manager_dialog.py:323-330 | a patch is a full mod exactly when the Dolphin root and a stage path are set and the normalised stage path begins with the normalised root |
| PatchManager.StatusFollowsComparison | patch_manager_dialog.py:1312-1324 | with both versions known the status is 'Update Available', 'Up to Date' or 'Newer Installed' exactly as the installed version compares below, equal to or above the catalog's, and swapping the versions swaps the first and the last |
| PatchManager.SameVersionUpToDate | patch_manager_dialog.py:1316-1321 | the same version installed and in the catalog is 'Up to Date' |
| PatchManager.ButtonsDisabledExactly | patch_manager_dialog.py:880-912 | both download buttons are off exactly when a full mod is installed and the full download is unavailable or not an update; an available update always enables the full download |
| PatchManager.BaseGame | patch_manager_dialog.py:1962-1972 | empty and 'newer' in any case give Newer Super Mario Bros. Wii, 'base' in any case gives New Super Mario Bros. Wii, anything else is kept verbatim |
| PatchManager.BaseGameCaseInsensitive | patch_manager_dialog.py:1966-1969 | spellings of 'newer' and 'base' that differ only in letter case resolve alike |
| PatchManager.PatchManagerDialog.constructor | patch_manager_dialog.py:41-44 | the dialog starts with no custom statuses and no scanned mods |
| PatchManager.PatchManagerDialog.AddScannedMod | patch_manager_dialog.py:1110-1122 | a mod is appended exactly when no listed mod has its name and root folder, so the list never holds such a duplicate |
| PathWalk.MouseAxis | quickpaint/core/engine.py:875-878 | the mouse points horizontally exactly when abs(dx) ≥ abs(dy) |
| PathWalk.Candidates | quickpaint/core/engine.py:929-970 | at most two candidate moves; under a lock only moves along the locked axis |
| PathWalk.CandidatesFacts | quickpaint/core/engine.py:929-970 | under a lock one candidate exactly when the target is off along that axis; unlocked, one per axis on which the target is off, the mouse's axis first |
| PathWalk.CandidateApproaches | quickpaint/core/engine.py:929-979 | every candidate is a cardinal neighbour one cell closer to the target |
| PathWalk.FirstFree | quickpaint/core/engine.py:977-1006 | every candidate before the chosen one is refused (stroke cell, slope footprint or the cell just left) and the chosen one is not |
| PathWalk.ApproachesMeaning | quickpaint/core/engine.py:920-1006 | an approaching walk is a chain of cardinal neighbours, each one cell closer to the target, no longer than the distance, with no repeat and not through its start |
| PathWalk.WalkApproaches | quickpaint/core/engine.py:920-1006 | the walk approaches the target one cardinal step at a time |
| PathWalk.WalkAvoids | quickpaint/core/engine.py:982-987 | the walk never enters a stroke cell or a slope footprint, and its first cell is not the cell it came from |
| PathWalk.WalkKeepsAxis | quickpaint/core/engine.py:931-948 | under a horizontal lock the walk stays on its row, under a vertical lock on its column |
| PathWalk.WalkEnds | quickpaint/core/engine.py:920-1010 | the walk ends on the target or where every candidate is refused |
| PathWalk.WalkEmpty | quickpaint/core/engine.py:973-1010 | an empty walk means the start is the target or every candidate is refused there |
| PathWalk.WalkCons | quickpaint/core/engine.py:977-1006 | a non-empty walk starts with an accepted cardinal step toward the target, on the locked axis if any |
| PathWalk.StepAxes | quickpaint/core/engine.py:990-998 | one axis per step |
| PathWalk.TrackCons | quickpaint/core/engine.py:990-998 | tracking a step and then the rest is tracking the whole |
| PathWalk.TrackAllFacts | quickpaint/core/engine.py:990-998 | after any steps the last move direction is the last step's axis with a positive count, and a run in the already-tracked direction adds its length to the count |
| PathWalk.WalkStep | quickpaint/core/engine.py:977-1006 | one accepted candidate is the first cell of the walk, the rest is the walk from it, and it is strictly closer |
| PathWalk.FirstAccepted | quickpaint/core/engine.py:977-1006 | the candidate loop picks the first candidate that is not refused, or none |
| PathWalk.NextStep | quickpaint/core/engine.py:920-1010 | one loop iteration: no step exactly when the walk is empty, otherwise the walk's first cell and its axis |
| PathWalk.Walk | quickpaint/core/engine.py:917-1012 | the returned cells are the walk toward the target, and the move direction and count are those tracked over its steps |
| PathWalk.WalkFacts | quickpaint/core/engine.py:805-1012 | the walk is 4-connected, one cell closer each step, free of repeats, avoids the stroke and the slopes, never steps back onto the cell just left, keeps a lock's row or column, and ends on the target or stuck |
| PathWalk.DampenFacts | quickpaint/core/engine.py:889-915 | no dampening without a positive factor; otherwise a primary axis is set, a lock follows the primary axis only for a target less than `factor` off the primary line, and a farther target turns the axis and restarts the line at the stroke end |
| PathWalk.ExitGate | quickpaint/core/engine.py:860-872 | after a slope exit the walk is refused unless it moves on in the exit's horizontal direction, and passing the gate clears the exit |
| PathWalk.SlopeBlocked | quickpaint/core/engine.py:830-843 | the blocked cells are exactly the cells of the committed and previewed slopes' footprints |
| Presets.Get | quickpaint/core/presets.py:113-114 | a lookup finds the stored preset exactly when the name is a key |
| Presets.Put | quickpaint/core/presets.py:161 | storing a preset changes only that name's entry; a new name goes at the end of the key order, an existing one keeps its place |
| Presets.Remove | quickpaint/core/presets.py:185-186 | deleting a name removes only that entry |
| Presets.Merge | quickpaint/core/presets.py:98-100 | `update` keeps the existing key order as a prefix and the keys distinct |
| Presets.Update | quickpaint/core/presets.py:98-100 | the same over the whole second dict |
| Presets.MergeFacts | quickpaint/core/presets.py:98-100 | after `update` each name holds the second dict's entry when it has one, the first's otherwise |
| Presets.MergeFromEmpty | quickpaint/core/presets.py:98-99 | updating an empty dict copies the other's order and keys |
| Presets.MergeOrderFromEmpty | quickpaint/core/presets.py:98-99 | updating an empty dict copies the other's key order |
| Presets.UpdateOverrides | quickpaint/core/presets.py:91-101 | in the merged dict a user preset overrides a builtin one of the same name, and the keys are those of both |
| Presets.LoadAll | quickpaint/core/presets.py:52-57 | the presets read from a directory form a well-ordered dict |
| Presets.LoadAllNames | quickpaint/core/presets.py:52-59 | each preset is stored under its own brush name, and a name is present exactly when some readable file holds a brush of that name |
| Presets.FirstMatch | quickpaint/core/presets.py:135-139 | a found preset matches the tileset and is the first matching one in key order; nothing is found exactly when no preset matches |
| Presets.PresetManager.All | quickpaint/core/presets.py:91-101 | the merged view is a well-ordered dict |
| Presets.PresetManager.constructor | quickpaint/core/presets.py:19-35 | both caches start empty |
| Presets.PresetManager.LoadBuiltinPresets | quickpaint/core/presets.py:37-62 | a non-empty cache is returned as it is; otherwise a missing directory gives no presets and an existing one its files' presets, which become the cache; the user cache is untouched |
| Presets.PresetManager.LoadUserPresets | quickpaint/core/presets.py:64-89 | the same rule for the user directory and cache |
| Presets.PresetManager.GetAllPresets | quickpaint/core/presets.py:91-101 | the builtin presets updated with the user presets, after loading whichever cache is empty |
| Presets.PresetManager.GetPreset | quickpaint/core/presets.py:103-114 | the user preset of that name if there is one, else the builtin one, else nothing |
| Presets.PresetManager.AllOverrides | quickpaint/core/presets.py:91-101 | the merged view holds every name of both caches, a user preset shadowing the builtin one |
| Presets.PresetManager.GetPresetForTileset | quickpaint/core/presets.py:116-139 | a preset named exactly like the tileset wins; otherwise the first preset in merged order whose patterns match, or nothing |
| Presets.PresetManager.SavePreset | quickpaint/core/presets.py:141-166 | a written file stores the brush in the user cache under its name and reports success; a failed write changes nothing and reports failure |
| Presets.PresetManager.DeletePreset | quickpaint/core/presets.py:168-193 | success exactly when the file existed and was removed, in which case only that name leaves the user cache; otherwise nothing changes |
| Presets.PresetManager.ListBuiltinPresets | quickpaint/core/presets.py:195-202 | the builtin names in load order |
| Presets.PresetManager.ListUserPresets | quickpaint/core/presets.py:204-211 | the user names in load order |
| Presets.PresetManager.ListAllPresets | quickpaint/core/presets.py:213-220 | every name of both caches once, builtin names first in their order |
| Presets.PresetManager.ClearCache | quickpaint/core/presets.py:222-225 | both caches empty, so the next access reads the directories again |
| Presets.NoEntriesIsEmpty | quickpaint/core/presets.py:44-45 | a cache with no keys is the empty dict, so the emptiness test of the cache is the right one |
| Presets.ReadDirectory | quickpaint/core/presets.py:52-59 | the loop over the directory's files builds the presets `LoadAll` describes |
| RawData.Zeros | raw_data.py:111 | `bytes(n)` is n zero bytes |
| RawData.ZeroBlocks | raw_data.py:117 | one `bytes(4)` block per extended setting |
| RawData.SettingsSetter | raw_data.py:39-44 | the settings setter replaces bytes 2..5, reads back through the getter, and leaves the events and every other byte alone |
| RawData.EventsSetterAsWritten | raw_data.py:27-32 | as written, the events setter writes its value into the settings and leaves the events unchanged |
| RawData.EventsSetterAsWrittenCounterexample | raw_data.py:27-32 | on eight zero bytes, setting the events to 1, 2, 3, 4 does not read back 1, 2, 3, 4 |
| RawData.EventsSetterRoundTrip | raw_data.py:23-32 | the corrected events setter reads back through the getter and leaves the settings alone |
| RawData.EventsSettingsRejoin | raw_data.py:23-37 | the events and settings views together rebuild the original bytes |
| RawData.SetItemInPlace | raw_data.py:78-79 | `__setitem__` writes the value at the index, keeps the length when the value fits, and leaves every other byte alone |
| RawData.TrimZeroTail | raw_data.py:133-138 | popping trailing zero blocks keeps a prefix, never goes below the floor, removes only zero blocks, and stops at a non-zero block above the floor |
| RawData.TrimIdempotent | raw_data.py:133-147 | trimming twice is trimming once |
| RawData.FixedBlocks | raw_data.py:130-138 | too few blocks are padded with zero blocks up to the count; otherwise trailing zero blocks above the count are dropped |
| RawData.RawData.constructor | raw_data.py:15-20 | the object holds the given bytes, blocks and format |
| RawData.RawData.FromSpriteId | raw_data.py:106-119 | eight zero bytes; an unknown sprite gets no blocks and the vanilla format, a known one a zero block per extended setting and the extended format exactly when there are any |
| RawData.RawData.SetEventsAsWritten | raw_data.py:27-32 | the events setter as written, blocks untouched |
| RawData.RawData.SetEvents | raw_data.py:27-32 | the corrected events setter, blocks untouched |
| RawData.RawData.SetSettings | raw_data.py:39-44 | the settings setter, blocks untouched |
| RawData.RawData.SetOriginal | raw_data.py:51-56 | the original bytes become the eight-byte value |
| RawData.RawData.SetItem | raw_data.py:78-79 | the splice of `__setitem__`, blocks untouched |
| RawData.RawData.Copy | raw_data.py:98-103 | a fresh object with the same bytes, blocks and format |
| RawData.RawData.FixSizeIfNeeded | raw_data.py:122-138 | an unknown sprite is untouched; a known one gets its blocks padded or trimmed to its count; the original bytes never change |
| RawData.RawData.Optimized | raw_data.py:141-147 | a fresh copy without trailing zero blocks; the receiver is untouched |
| SlopeShapes.SizeWidth | quickpaint/core/engine.py:492 | a slope is 1, 2 or 4 tiles wide |
| SlopeShapes.NameIsSlope | quickpaint/core/engine.py:479 | every `slope_{category}_{size}_{side}` name the engine builds is one of the brush's twelve slope keys |
| SlopeShapes.SizeOccurs | quickpaint/core/engine.py:555-560 | a size text occurs in a slope name exactly when it is that slope's size |
| SlopeShapes.SlopeDimensions | quickpaint/core/engine.py:2184-2200 | every slope type is 2 tall and 1, 2 or 4 wide, the size texts tested in the order '1x1', '2x1', '4x1' |
| SlopeShapes.DimensionsOfName | quickpaint/core/engine.py:2184-2200 | for the names the engine builds, the string rule gives the shape's own width and height 2 |
| SlopeMode.TopInName | quickpaint/core/engine.py:310 | for the names the engine builds, `'top' in slope_type` holds exactly for ground slopes |
| SlopeMode.LeftInName | quickpaint/core/engine.py:581 | for the names the engine builds, `'left' in slope_type` holds exactly for ascending slopes |
| SlopeMode.WidthOfName | quickpaint/core/engine.py:555-560 | `commit_slope`'s width rule gives the shape's own width |
| SlopeMode.ExitDirection | quickpaint/core/engine.py:307-316 | leaving slope mode sets an exit direction exactly when a slope was committed: left-to-right after a ground slope, right-to-left after a ceiling slope |
| SlopeMode.SizeCandidates | quickpaint/core/engine.py:469-474 | each angle class tries all three sizes |
| SlopeMode.EnabledShapes | quickpaint/core/engine.py:460 | a shape is enabled exactly when the brush lists its name |
| SlopeMode.FirstEnabled | quickpaint/core/engine.py:477-482 | the first size whose slope is enabled; nothing exactly when none is |
| SlopeMode.Branch | quickpaint/core/engine.py:383-439 | a preview is possible only off the anchor's column: left-to-right strokes only rightwards, right-to-left only leftwards, no direction never; an inner corner only for vertical strokes; the category is ground exactly for rightward previews |
| SlopeMode.OriginFor | quickpaint/core/engine.py:492-504 | a ground slope starts just right of the anchor, a ceiling slope ends just left of it; an ascending slope sits one row higher |
| SlopeMode.Pick | quickpaint/core/engine.py:477-504 | the slope of the first enabled size, placed against the anchor, and nothing when no size is enabled |
| SlopeMode.PreviewFacts | quickpaint/core/engine.py:338-511 | a preview is an enabled slope, ground exactly when the mouse is right of the anchor, ascending exactly when above it, placed against the anchor; no preview on the anchor or against the stroke's horizontal direction; an inner corner only for vertical strokes |
| SlopeMode.FirstEnabledOfAll | quickpaint/core/engine.py:477-489 | trying the three sizes finds nothing exactly when no size of that category and side is enabled |
| SlopeMode.PreviewSizeIsFirstEnabled | quickpaint/core/engine.py:469-489 | off the anchor's column on a reachable side, there is no preview exactly when nothing of that category and side is enabled, and otherwise every size tried before the chosen one is disabled |
| SlopeMode.PreviewPicksFirst | quickpaint/core/engine.py:443-511 | off the anchor's column on a reachable side, the preview is the first enabled size among the angle's candidates |
| SlopeMode.SuggestionFacts | quickpaint/core/engine.py:608-669 | only horizontal strokes get a suggestion, ground exactly for left-to-right; ascending slopes are preferred, then the smallest enabled size; there is none exactly when no slope of the category is enabled |
| SlopeMode.AnchorAfter | quickpaint/core/engine.py:578-597 | the anchor after a commit lies in the committed slope's footprint, at its far column for ground slopes and its first column for ceiling slopes |
| SlopeMode.CommitMovesAnchor | quickpaint/core/engine.py:513-606 | committing a preview moves the anchor by the slope's width (right for ground, left for ceiling) and one row up or down with its side |
| SlopeMode.CommitSuggestionMovesAnchor | quickpaint/core/engine.py:578-597 | the same for a committed default suggestion |
| SlopeMode.CurrentDirection | quickpaint/core/engine.py:267-287 | the direction of the stroke's last move, horizontal sign first; the initial direction when there is no move |
| TerrainAware.EdgeRelations | quickpaint/core/engine.py:4062-4074 | perpendicular and parallel are symmetric and never both hold; between two edge types exactly one holds; a non-edge type is in neither relation, and only edge types are parallel to themselves |
| TerrainAware.FindCornerPosition | quickpaint/core/engine.py:3206-3245 | a position exactly for perpendicular types, where the vertical edge's column meets the horizontal edge's row |
| TerrainAware.CornerNames | quickpaint/core/engine.py:3247-3269 | the outer corners are named horizontal-then-vertical, the inner ones with the `inner_` prefix |
| TerrainAware.CornerFromEdgesMeaning | quickpaint/core/engine.py:3247-3269 | the corner of two edge types does not depend on their order, exists exactly when they are perpendicular, and is the outer corner they name |
| TerrainAware.CornerFunctionsAgree | quickpaint/core/engine.py:4101-4121 | `_determine_corner_type` agrees with `_determine_corner_type_from_edges` on every input; the positions are never consulted |
| TerrainAware.CornerForEndpoint | quickpaint/core/engine.py:3448-3558 | a corner exactly when the endpoint's and the existing tile's types are perpendicular |
| TerrainAware.CornerForEndpointMeaning | quickpaint/core/engine.py:3448-3558 | the outer corner the two edges name when either tile lies on the inside of the other, otherwise the inner corner with the side mirrored |
| TerrainAware.BorderDirections | quickpaint/core/engine.py:3884-3917 | at most two unit directions: the normal of an edge, the two normals (vertical first) of an outer corner |
| TerrainAware.CornerFacesBothEdges | quickpaint/core/engine.py:3884-3917 | an outer corner faces exactly its two edges' directions, and only edge and outer-corner types face anywhere |
| TerrainAware.BorderDirection | quickpaint/core/engine.py:3933-3946 | a direction exactly for edge types, the one they face; corners get none |
| TerrainAware.FindCornerGap | quickpaint/core/engine.py:4076-4099 | a gap exactly for diagonal neighbours, and it is a cardinal neighbour of the first tile |
| TerrainAware.CornerGapSymmetric | quickpaint/core/engine.py:4076-4099 | for perpendicular tiles the gap does not depend on their order and is where `_find_corner_position` puts the corner |
| TerrainScan.TypeAt | quickpaint/core/engine.py:3948-3971 | a type only for an occupied cell, and for an occupied cell the brush's type of its object |
| TerrainScan.DeletedByAdd | quickpaint/core/engine.py:3835-3846 | visiting one more border direction deletes exactly one more candidate: the tile beyond it, when the check passes |
| TerrainScan.ReplacedByAdd | quickpaint/core/engine.py:3850-3875 | visiting one more border direction replaces exactly one more candidate: the tile behind it, when the check passes |
| TerrainScan.VisitOutside | quickpaint/core/engine.py:3835-3846 | the outside check keeps `deletions` a repeat-free list of exactly the keys the visited directions delete |
| TerrainScan.VisitInside | quickpaint/core/engine.py:3850-3875 | the inside check keeps one center tile per replaced key, exactly the keys the visited directions replace, none when the brush has no center tile |
| TerrainScan.SlopeHasNoBorder | quickpaint/core/engine.py:3813-3820 | a slope type has no border directions, so skipping slopes changes nothing |
| TerrainScan.PairsOfStep | quickpaint/core/engine.py:3808-3822 | one more outline tile adds exactly its border directions to the visited pairs |
| TerrainScan.DirsStep | quickpaint/core/engine.py:3822 | one more direction adds one visited pair |
| TerrainScan.ScanTile | quickpaint/core/engine.py:3808-3875 | both checks over every border direction of one outline tile keep the deletion and replacement invariants |
| TerrainScan.ScanNeighbours | quickpaint/core/engine.py:3798-3875 | the deletions are exactly the existing unprotected tiles just outside an outline border facing the same way (and not the same plain edge), once each; the center tiles are exactly those for the tiles just inside, once each |
| TerrainScan.ScanProtects | quickpaint/core/engine.py:3835-3850 | nothing on another layer, not existing, protected by the connection step or on the outline is ever deleted or replaced, and each deletion lies beyond some outline tile in one of its border directions |
| TerrainScan.PairKey | quickpaint/core/engine.py:4025 | the unordered pair key holds both tiles, smaller first |
| TerrainScan.CornerSymmetric | quickpaint/core/engine.py:4019-4057 | the corner of two tiles does not depend on their order, which is why each unordered pair is checked once |
| TerrainScan.CornerMeaning | quickpaint/core/engine.py:4031-4057 | a corner joins two perpendicular diagonal neighbours at the off-outline cell next to both, the one `_find_corner_position` names, with the brush's id for the corner the edges name, one cell on the current layer |
| TerrainScan.BorderTiles | quickpaint/core/engine.py:4010-4014 | each outline position with a plain edge type, once |
| TerrainScan.CheckPair | quickpaint/core/engine.py:4020-4057 | one pair check records the pair and emits its corner, if any, keeping one corner per checked pair with a corner |
| TerrainScan.CheckedAdd | quickpaint/core/engine.py:4025-4057 | checking a new pair keeps the corner state once its corner is emitted |
| TerrainScan.CheckRow | quickpaint/core/engine.py:4020-4057 | the inner loop checks the tile against every other border tile |
| TerrainScan.CheckCornerConnections | quickpaint/core/engine.py:4000-4060 | one corner tile per unordered pair of outline tiles that has a corner, and no other |
| TerrainScan.CornersFromBorder | quickpaint/core/engine.py:4010-4028 | once all pairs of border tiles are checked, every pair of outline tiles with a corner has emitted it |
| TerrainScan.CornerNeedsEdges | quickpaint/core/engine.py:4013-4032 | a corner needs two distinct plain-edge tiles, so looking only at border tiles loses nothing |
| TerrainScan.CornerPairsChecked | quickpaint/core/engine.py:4017-4028 | the checked set may be replaced by the emitted pairs without losing the invariant |
| TerrainScan.CheckExistingTerrain | quickpaint/core/engine.py:3778-3882 | the center tiles of the neighbour scan followed by the corner tiles, and the deletions, each as described above |
| RawEditor.Hex | raw_editor.py:196 | `bytes.hex()` gives two hex digits per byte |
| RawEditor.FromHexHex | raw_editor.py:180-183 | `bytes.fromhex` of the hex text of any bytes gives those bytes back |
| RawEditor.FromHexPlain | raw_editor.py:57-58 | on text without whitespace, `fromhex` succeeds exactly when the text is an even number of hex digits |
| RawEditor.FromHexWithoutSpaces | raw_editor.py:54-57 | removing the spaces from a text `fromhex` accepts leaves it accepted, with the same bytes |
| RawEditor.GroupLayout | raw_editor.py:35 | the grouping of a space-free text has a single space at every fifth position and nowhere else, keeps the characters in order, and removing the spaces gives the text back |
| RawEditor.GroupEnds | raw_editor.py:35 | the grouping starts with the text's first character and ends with its last, so `strip()` removes nothing |
| RawEditor.DisplayOfPlain | raw_editor.py:35 | a text without whitespace is shown as its grouping, unchanged by `strip()` |
| RawEditor.SetTextThenText | raw_editor.py:28-37 | after `setText(s)`, `text()` returns s without '0x' and without spaces |
| RawEditor.TextFormatIsGrouped | raw_editor.py:16 | the initial format is `size` x's grouped by four |
| RawEditor.InitialLastGood | raw_editor.py:16-17 | the initial last-good text is `size` zeros grouped by four |
| RawEditor.InitialLastGoodValid | raw_editor.py:16-17 | for an even size, the initial last-good text passes `_is_raw_data_valid` |
| RawEditor.FromHexSpaced | raw_editor.py:35 | grouping a run of hex digits does not change what `fromhex` makes of it |
| RawEditor.FormattedLineEdit.constructor | raw_editor.py:12-17 | the field starts empty, with the zero-filled format as its last good text |
| RawEditor.FormattedLineEdit.SetText | raw_editor.py:32-37 | the shown text is the cleaned text grouped and stripped, and the last good text is the cleaned text |
| RawEditor.FormattedLineEdit.IsRawDataValid | raw_editor.py:49-62 | accepts exactly when there are `size` characters once spaces are removed and `fromhex` parses the text; only on acceptance is the last good text updated, and the shown text never changes |
| RawEditor.FormattedLineEdit.FocusOut | raw_editor.py:65-69 | a valid text stays and becomes the last good text; an invalid one is replaced by the cleaned last good text |
| RawEditor.RestoredTextValid | raw_editor.py:65-67 | the last good text that focus-out restores reads back as a valid text |
| RawEditor.DataSpliceInvertsSplit | raw_editor.py:180-182 | `events[:2] + settings + events[2:]` rebuilds every original from RawData's events and settings slices |
| RawEditor.SelectedAfterResize | raw_editor.py:172 | the new selection is 0 when nothing was selected, otherwise `min(last, size - 1)`: an index still in range is kept and no selection exceeds the old one |
| RawEditor.ShownHexIsHex | raw_editor.py:196 | a field set from some bytes' hex reads back exactly that hex text |
| RawEditor.ShownBlockTexts | raw_editor.py:197-198 | each block field reads back its block's hex text |
| RawEditor.ParseHexAll | raw_editor.py:183 | parsing each block's hex text gives the blocks back |
| RawEditor.DataRoundTrip | raw_editor.py:175-198 | setting `data` and reading it back gives the same original and blocks |
| RawEditor.NewSpriteRawEditor.constructor | raw_editor.py:122-131 | no blocks, four zero settings bytes, an empty events field, nothing selected |
| RawEditor.NewSpriteRawEditor.SetSize | raw_editor.py:146-172 | `size` fresh empty block fields, the selection rule, settings and events untouched |
| RawEditor.NewSpriteRawEditor.SetData | raw_editor.py:188-198 | stores the settings, shows the events' and each block's hex, and the `data` getter then returns the same original and blocks |
| TilePicker.LayoutShape | quickpaint/ui/tile_picker_canvas.py:87-92 | the reported grid is 16 wide (row 0's length) and 8 high, although rows 2 and 5 (0-based) hold 26 entries whose extra cells are all empty |
| TilePicker.ClickCell | quickpaint/ui/tile_picker_canvas.py:1213-1262 | a click reports a type only with a brush and inside the reported 16×8 grid, and then it is the layout's entry for the 24-pixel cell hit |
| TilePicker.EveryTerrainClickable | quickpaint/ui/tile_picker_canvas.py:27-52 | each of the 13 terrain positions has a cell whose click reports it |
| TilePicker.EverySlopeClickable | quickpaint/ui/tile_picker_canvas.py:27-52 | each slope type has a cell whose click reports it |
| TilePicker.ClickedTypes | quickpaint/ui/tile_picker_canvas.py:1244-1252 | a reported type is a terrain position, a slope type or the "floor_covered" filler |
| TilePicker.RowTypes | quickpaint/ui/tile_picker_canvas.py:27-52 | every non-empty layout entry is a terrain position, a slope type or "floor_covered" |
| TilePicker.FloorClickChangesNothing | quickpaint/ui/tile_picker_canvas.py:1260-1262 | handing "floor_covered" to the panel's tile handler leaves a well-formed brush unchanged |
| TilePicker.StatusMeaning | quickpaint/ui/tile_picker_canvas.py:1168-1177 | the indicator is green exactly when all 13 terrain positions are assigned and the enabled slopes are a subset of the assigned ones, an empty enabled set counting as satisfied |
| TilePicker.StatusMonotone | quickpaint/ui/tile_picker_canvas.py:1168-1177 | assigning a tile, or unticking slopes, never turns a green indicator red |
| TilePicker.NewBrushIncomplete | quickpaint/ui/tile_picker_canvas.py:1168-1177 | a new brush shows red |
| TilePicker.ClearedEffect | quickpaint/ui/tile_picker_canvas.py:1186-1209 | after clearing, every terrain and slope id is None and both assigned sets are empty; the enabled slopes, name, slot, tilesets, mode and priority are kept; clearing is idempotent, keeps a brush well formed and leaves the indicator red |
| TilePicker.ClearOneMore | quickpaint/ui/tile_picker_canvas.py:1194-1195 | clearing one more key is one table write of None |
| TilePicker.ClearTerrainIds | quickpaint/ui/tile_picker_canvas.py:1194-1195 | the brush afterwards has exactly the 13 terrain names set to None and nothing else changed |
| TilePicker.ClearSlopeIds | quickpaint/ui/tile_picker_canvas.py:1201-1202 | the brush afterwards has every key of its slope table set to None and nothing else changed |
| TilePicker.TilePickerCanvas.constructor | quickpaint/ui/tile_picker_canvas.py:54-70 | the canvas holds the given brush and an empty tile map |
| TilePicker.TilePickerCanvas.ClearAllTiles | quickpaint/ui/tile_picker_canvas.py:1186-1205 | with a brush, its new state is the cleared state of the old one |
| TilePicker.TilePickerCanvas.MarkSlope | quickpaint/ui/tile_picker_canvas.py:1007-1013 | every cell of the slope's width×2 footprint maps to (id, slope), no other cell is added, and every other entry is kept |
| TilePicker.TilePickerCanvas.MarkRow | quickpaint/ui/tile_picker_canvas.py:1012-1013 | the first `w` cells of the row map to (id, slope), no other cell is added, and every other entry is kept |
| ToolManagement.QptAndFillExclusive | quickpaint/core/tool_manager.py:61-75 | `is_any_qpt_active` and `is_any_fill_active` are never both true, and neither holds with no tool |
| ToolManagement.DisplayName | quickpaint/core/tool_manager.py:189-201 | every tool has its own display name, so "Unknown" is never returned, and "No Tool" is exactly the name of no tool |
| ToolManagement.DisplayNameRoundTrip | quickpaint/core/tool_manager.py:189-201 | a display name identifies its tool |
| ToolManagement.ToolManager.constructor | quickpaint/core/tool_manager.py:41-50 | no active tool, no containers, index 0, no callbacks, nothing emitted |
| ToolManagement.ToolManager.RegisterCallbacks | quickpaint/core/tool_manager.py:126-132 | only the callback sets grow; the tool, containers, index and emitted events are unchanged |
| ToolManagement.ToolManager.ActivateTool | quickpaint/core/tool_manager.py:81-110 | always True, and the argument becomes active; re-activating the active tool emits nothing; otherwise the old tool's deactivate callback, then the new tool's activate callback (each only if registered and not NONE), then `tool_changed(new, old)` |
| ToolManagement.ToolManager.DeactivateTool | quickpaint/core/tool_manager.py:112-124 | a no-op from NONE; otherwise the deactivate callback, NONE becomes active, and `tool_changed(NONE, old)` then `tool_deactivated` are emitted |
| ToolManagement.ToolManager.RegisterDecoContainer | quickpaint/core/tool_manager.py:154-157 | an id is appended only when not yet registered, so no id is ever listed twice |
| ToolManagement.ToolManager.UnregisterDecoContainer | quickpaint/core/tool_manager.py:159-164 | removes the first occurrence of a registered id and leaves an unknown id without effect; an index that falls off the end becomes 0, so the index stays valid |
| ToolManagement.ToolManager.CycleDecoContainer | quickpaint/core/tool_manager.py:166-177 | None with no containers; otherwise the index advances by one modulo the count and the container there is returned |
| ToolManagement.ToolManager.CurrentDecoContainer | quickpaint/core/tool_manager.py:179-183 | None exactly when no container is registered, and otherwise the container at the current index |
| Widget.BaseModeIsFirstPiece | quickpaint/ui/widget.py:505 | `mode.split(" (")[0]` is the prefix of the combo text up to the first " (", or the whole text when it holds none |
| Widget.BaseModeIdempotent | quickpaint/ui/widget.py:505 | a text without " (" is its own base name, and taking the base name twice changes nothing |
| Widget.QuickPaintWidget.constructor | quickpaint/ui/widget.py:103 | the panel starts in "SmartPaint" with the given brush and no selected object |
| Widget.QuickPaintWidget.OnModeChanged | quickpaint/ui/widget.py:502-506 | `current_mode` becomes the base name of the chosen entry; brush and selection are untouched |
| Widget.PruneSlopesEffect | quickpaint/ui/widget.py:628-641 | an enabled, assigned slope that is unticked becomes unassigned with id 0 (not None); every other slope keeps its id and assignment; the enabled set becomes exactly the ticked set; the terrain is untouched; well-formedness is kept |
| Widget.PrunedSlopeSavedDisabled | quickpaint/ui/widget.py:634-641 | a slope dropped this way is saved to JSON as disabled (-1) |
| Widget.DropOneMore | quickpaint/ui/widget.py:634-637 | one loop step clears one more assigned slope with a single table write and set removal, and skips an unassigned one |
| Widget.ClearDisabledSlopes | quickpaint/ui/widget.py:634-638 | after the loop, exactly the assigned slopes among the unticked ones are unassigned with id 0 |
| Widget.QuickPaintWidget.OnSlopeFlagChanged | quickpaint/ui/widget.py:622-641 | with a brush, its new state is the pruned state for the ticked boxes; without one nothing happens |
| Widget.AssignTileEffect | quickpaint/ui/widget.py:834-841 | on a well-formed brush, a terrain name sets that terrain slot, a slope name that slope slot, any other name changes nothing, and the brush stays well formed |
| Widget.AssignTileTwice | quickpaint/ui/widget.py:811-841 | the canvas reaches the handler twice (signal and direct call), and the second assignment changes nothing |
| Widget.QuickPaintWidget.OnTileSelectedFromCanvas | quickpaint/ui/widget.py:811-841 | nothing changes without a brush or a selected object; otherwise the brush becomes the assigned state |
| Widget.SelectedMembers | quickpaint/ui/widget.py:374-382 | a preset is collected iff some key holds it and it passes the slot and tileset filter |
| Widget.CollectPresets | quickpaint/ui/widget.py:374-382 | the loop collects the kept presets in dict order |
| Widget.InsertPermutes | quickpaint/ui/widget.py:412-417 | inserting by priority adds exactly the one preset |
| Widget.InsertDescending | quickpaint/ui/widget.py:412-417 | inserting into a list in descending priority keeps it descending |
| Widget.InsertStable | quickpaint/ui/widget.py:412-417 | inserting keeps the order among presets of each priority, with the new one first among its own |
| Widget.SortFacts | quickpaint/ui/widget.py:412-417 | `sorted(..., key=priority, reverse=True)` is a permutation in descending priority that keeps the input order among presets of equal priority |
| Widget.SortPermutes | quickpaint/ui/widget.py:412-417 | the sort is a permutation |
| Widget.SortDescending | quickpaint/ui/widget.py:412-417 | the sort is in descending priority |
| Widget.SortStable | quickpaint/ui/widget.py:412-417 | the sort is stable |
| Widget.SortHead | quickpaint/ui/widget.py:941-942 | the head of the sorted list is a preset of the highest priority, the earliest of those in the input |
| Widget.SortHeadMax | quickpaint/ui/widget.py:941-942 | the head of the sorted list is one of the presets and no preset has a higher priority |
| Widget.LoadPresets | quickpaint/ui/widget.py:362-385 | the listed presets are exactly those of the slot that match the tileset, or all of the slot when no tileset name is loaded, in descending priority |
| Widget.FindMatchingPreset | quickpaint/ui/widget.py:912-942 | None exactly when no preset of the slot matches the tileset; otherwise a matching preset of the highest priority, the first in dict order on a tie |
| Finalize.FirstPass | quickpaint/core/engine.py:1762-1805 | the cells collected for merging are exactly those in the merge order, and the pass only adds placed keys |
| Finalize.PassSound | quickpaint/core/engine.py:1762-1805 | every slope object sits on an outline position whose slope type the brush assigns, has that id and the slope's full size, and its key was neither placed before nor in an empty slope region; every collected terrain cell is an outline position of that kind with its terrain name and brush id |
| Finalize.PassPlaced | quickpaint/core/engine.py:1765-1799 | after the pass a key is placed exactly when it was placed before or a slope object covers it |
| Finalize.SlopesApart | quickpaint/core/engine.py:1765-1799 | no slope object starts on a cell of an earlier slope object |
| Finalize.PassComplete | quickpaint/core/engine.py:1762-1805 | every outline position whose type has a brush id ends up placed or collected, unless its key is in an empty slope region |
| Finalize.RunFirstPass | quickpaint/core/engine.py:1757-1805 | the loop over the outline produces exactly the first pass |
| Finalize.MarkRect | quickpaint/core/engine.py:1796-1799 | the slope marking loop adds exactly the slope's rectangle of keys |
| Finalize.MarkPlacement | quickpaint/core/engine.py:1815-1820 | the marking loop for one terrain object adds its cells to the placed keys and maps each of them to its id, keeping every other entry |
| Finalize.MarkAll | quickpaint/core/engine.py:1814-1820 | the loop over the merged objects produces the marked placed set and tile map |
| Finalize.MarkPlacedMembers | quickpaint/core/engine.py:1814-1819 | after marking, a key is placed exactly when it was before or some object covers it |
| Finalize.MarkExistingKeys | quickpaint/core/engine.py:1814-1820 | after marking, the tile map holds the old keys and the covered ones; an uncovered key keeps its id |
| Finalize.MarkExistingLast | quickpaint/core/engine.py:1814-1820 | a covered key records the id of the last object covering it |
| Finalize.LastCover | quickpaint/core/engine.py:1811-1812 | a collected cell is covered by one merged object, none after it, and that object carries the cell's id |
| Finalize.TerrainRecorded | quickpaint/core/engine.py:1811-1820 | after marking, every collected terrain cell is placed and the tile map holds the id it was collected with |
| Finalize.OutlineFullyPlaced | quickpaint/core/engine.py:1741-1822 | after the finish, every outline position whose type has a brush id is placed, unless its key is in an empty slope region |

## Left out

- Qt drawing, widget construction, layouts, cursors, message boxes, timers and signal emission are not modelled. This covers `init_ui`, the `_draw_*` and `render_object` routines, `draw_object_grid`, `resizeEvent` and the status-bar text. None of it has a contract beyond the decisions modelled above.
- The editor glue in quickpaint/ui/reggie_integration.py is not modelled: the tab classes' event handlers, `_place_object`, `_delete_tile_at`, `_refresh_object_database`, hotkeys and resets. These forward to the engine, the fill engine and the level scene. The algorithms they call are modelled.
- The widget.py handlers for preset loading, saving and deletion, layer and dampening controls, tileset-slot changes and `reset_to_default` are not modelled. They are UI plumbing over `Presets`, `Brush` and the engine setters, which are modelled.
- The patch manager dialog's file operations are not modelled: browsing, copying, installing, XML plugin editing, downloads and progress UI. The decisions it takes are modelled in `PatchManager`.
- gamedef.py's menu and dialog code, `LoadGameDef`, `getAvailableGameDefs`, `FindGameDef`, XML parsing and writing, and `UpgradeSpritesFile` are file-system and XML I/O. They are not modelled.
- catalog_manager.py's `fetch_remote_catalog`, `load_catalog`, `calculate_file_hash` and the installed-patch scans are network and file I/O. They are not modelled.
- download_manager.py's download and extract threads, `cancel` and `cancel_all` are concurrency. Only the manager's bookkeeping is modelled.
- dirty.py's `ensureSettingsVisible`, `reorganizeSettings` and `normalizeAllPaths` rewrite the settings store in place. Only the per-setting rules they apply are modelled.
- Engine: immediate-mode painting is not modelled. That is `_paint_tile_at`, `_paint_interpolated_path` and `_update_neighbor_tiles`.
- Engine: the stroke-finishing steps after the first pass and the merge are not modelled. These are `finish_painting`, `get_terrain_aware_modifications`, the self- and endpoint-connection checks (quickpaint/core/engine.py:2287-3204), the corner determinations (3271-3776), `_collect_adjacent_existing_tiles`, `_collect_connected_tiles` and the `get_pending_*_deletes` accessors. They are several hundred lines of case analysis over stroke shapes. The pure helpers they build on are modelled in `TerrainAware` and `TerrainScan`. `_finalize_deferred_painting` and `_remerge_placements` are modelled.
- Engine: `paint_slope`, `_get_tile_type_from_database`, `set_mode`, `set_immediate_mode` and the `get_*` accessors are not modelled. They are direct field reads or writes, or they forward to the brush.
- Engine: `_detect_slope_segments` uses floating-point angles and ratios. It is not modelled. `_determine_painting_direction` is modelled by `Engine.WithDirection`.
- The slope-size choice by `atan2` angle in `update_slope_preview` is an argument `angle` that classifies the mouse offset.
- The first `_get_slope_dimensions` (quickpaint/core/engine.py:1513-1521) and the first `mousePressEvent` (quickpaint/ui/tile_picker_canvas.py:849-877) are redefined later in their classes, so they never run. Only the later definitions are modelled.
- `_update_outline`: `covered_positions` is always empty (quickpaint/core/engine.py:545-546 and 1278). So the slope-only and skip branches that depend on it are not modelled.
- `_merge_consecutive_tiles`: the branch that skips an already-processed start cell is proved unreachable and is not modelled.
- `detect_slope_type`, `paint_smart_with_slopes`, and the ellipse routines `create_ellipse` and `erase_ellipse` use floating point. They are not modelled.
- The shape helpers at modes.py:267-323 only delegate to `QuickPainter`. They are not modelled separately.
- The log line in `_finalize_deferred_painting` that counts skipped positions is output only. It is not modelled, and neither is any other logging.
- The `DecoQuota` probability is kept as an exact fraction `num/den` instead of a float. `random.shuffle` is an arbitrary order given as an argument.
- Catalog.LeadingDigits: the digit test knows only the ASCII digits and the superscripts ¹, ² and ³. Python's `isdigit()` accepts every Unicode digit, and those other digits are not modelled.
- Catalog.ToInt: accepts only ASCII digits. Python's `int()` also accepts other Unicode decimal digits and single underscores between digits, which are not modelled.
- Dirty.ParseInt: accepts only ASCII digits after the optional sign. Python's `int()` also accepts other Unicode decimal digits and single underscores between digits, which are not modelled.
- `os.path.normpath`, the regular expressions of `SmartBrush.matches_tileset` and the Riivolution scans, and the `isdir`/`isfile` checks are inputs or abstract predicates.
- `RawData._binary_operation` and the `|`, `&` and `^` operators apply bitwise operators to `bytes` (raw_data.py:82-95), which fails in Python. They are not modelled. The `blocks` accessor, `format` and `__getitem__` are plain reads and are not modelled either.
- `OldSpriteRawEditor` and the other raw editors (raw_editor.py:73-111 and 223-276) are not modelled.
- The `_events_edited` and `_block_changed` signal handlers of `NewSpriteRawEditor` are not modelled.
- `Brush.JsonRoundTrip` requires that no enabled slope holds the id -1. Such an id would be saved as "disabled".
- `Events.MouseEventHandler.IsPainting` takes the engine's answer as an argument, because the engine is outside that module.
- `Engine.PaintingEngine.FinalizeDeferredPainting` requires a brush. `start_painting` refuses to start without one, and the source would fail on a missing brush here.
- `RawEditor.SelectedAfterResize` follows line 172 of raw_editor.py literally. Qt's handling of `setCurrentIndex` on an empty combo box is not modelled.
- The reset at patch_manager_dialog.py:962 is part of the catalog refresh. That refresh is I/O and is not modelled.
- Plain accessors, properties and singleton getters are not modelled separately, because the model exposes the fields they read. These are:
  - `FillEngine.count`, `state`, `fill_positions` and `get_fill_engine`;
  - `ToolManager.active_tool`, `is_active`, `is_any_tool_active` and `get_tool_manager`;
  - the `MouseEventHandler` getters;
  - the tile picker's `get_current_layout`, `set_brush`, `set_tileset`, `set_selected_position` and `get_selected_tiles`.
- The tool manager's callback invocations and the fill engine's callback setters call code outside the model. They are not modelled.
- `MouseEventHandler.set_mode` and `update_object_database` only forward to the engine. They are not modelled.
- `MouseEventHandler._on_outline_updated` stores the outline it is given. Its effect is modelled inside `Cancel`, `ResetStartObject` and `OnMousePress`. `_on_place_object` and `_on_painting_finished` only emit signals and are not modelled.
- `TilePosition`'s `__eq__`, `__hash__` and `__repr__` in painter.py are Dafny's built-in equality on the `Pos` pair.
- `SmartBrush.__repr__` and `__str__` are not modelled. `from_json_string` is `from_json` after a JSON parse, which is not modelled.

## Findings

| source | as written | input that shows it | evidently intended | confidence | as-written member | corrected member |
|---|---|---|---|---|---|---|
| raw_data.py:28-32 | the `events` setter splices the four bytes into positions 2..6, which the `settings` getter reads; the bytes that `events` reads are left unchanged | eight zero bytes, with events set to 1, 2, 3, 4: `events` still reads the old bytes | write bytes 0..2 and 6..8, the ones the `events` getter reads, so that the value set is the value read | high (not executed) | RawData.EventsSetterAsWrittenCounterexample | RawData.EventsSetterRoundTrip |
| dirty.py:128-131 | after the drive `C:`, the character at index 2 is always dropped, assuming it is a separator | "C:foo", a drive-relative path kept as is by `normpath`, becomes "C:/oo" | drop index 2 only when it is a separator | medium (not executed) | Dirty.DriveRelativeLosesChar | Dirty.NormalizeKeepsCharacters |
| quickpaint/core/painter.py:180-188 | of the outer-corner masks 0x07/0x0B, 0x0E/0x0D, 0x70/0x68 and 0xE0/0xD0, the masks 0x07, 0x0E, 0x0D, 0x70 and 0xE0 are not a corner's two edges with or without its diagonal, as the comments say (the right masks are 0x0A/0x0B, 0x12/0x16, 0x48/0x68 and 0x50/0xD0) | top, top-right and right neighbours (mask 0x16) give 'center'; top-left, top and top-right neighbours (0x07) give 'top_left' | each outer corner is recognised from its two edges, with or without the diagonal between them | high (not executed) | Painter.OuterCornersAsWritten | Painter.AutoTileOuterCorners |
| quickpaint/core/painter.py:191-198 | the inner-corner masks for top-right (0xFD) and bottom-right (0xBF) clear the top and bottom bits, not the top-right and bottom-right diagonals (0xFB and 0x7F) | every neighbour but the top one (0xFD) gives 'inner_top_right'; every neighbour but the top-right one (0xFB) gives 'center' | an inner corner is every neighbour but that one diagonal | high (not executed) | Painter.InnerCornersAsWritten | Painter.AutoTileInnerCorners |
