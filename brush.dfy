/** The smart brush (quickpaint/core/brush.py): tile ids for the 13 terrain
    positions and the 12 slope types, which of them were assigned, which
    slopes are enabled, and the JSON form presets are saved in. */
module Brush {
  import opened Common
  import opened Tiles

  /** A terrain or slope table: one optional tile id per key. */
  type Table = map<string, Option<int>>

  /** The abstract value of a brush: every field of `SmartBrush`. */
  datatype BrushState = BrushState(
    name: string,
    tilesetNames: seq<string>,
    slot: string,
    mode: string,
    priority: int,
    terrain: Table,
    terrainAssigned: set<string>,
    slopes: Table,
    enabledSlopes: set<string>,
    slopesAssigned: set<string>)

  /** The table with every key of `keys` unassigned. */
  function EmptyTable(keys: seq<string>): (t: Table)
    ensures forall k :: k in t <==> k in keys
    ensures forall k :: k in t ==> t[k].None?
  {
    map k | k in keys :: None
  }

  /** The tables have exactly the fixed keys, and the tracking sets name only
      those keys. */
  ghost predicate WellFormed(s: BrushState) {
    (forall k :: k in s.terrain <==> IsTerrain(k))
    && (forall k :: k in s.slopes <==> IsSlope(k))
    && (forall k :: k in s.terrainAssigned ==> IsTerrain(k))
    && (forall k :: k in s.slopesAssigned ==> IsSlope(k))
    && (forall k :: k in s.enabledSlopes ==> IsSlope(k))
  }

  /** `SmartBrush(name, tileset_names, slot, painting_mode)`: priority 0, every
      slot unassigned, every slope enabled, nothing assigned. */
  function NewState(name: string, tilesetNames: seq<string>, slot: string, mode: string): (s: BrushState)
    ensures WellFormed(s)
    ensures s.priority == 0 && s.terrainAssigned == {} && s.slopesAssigned == {}
    ensures forall k :: IsTerrain(k) ==> s.terrain[k].None?
    ensures forall k :: IsSlope(k) ==> s.slopes[k].None? && k in s.enabledSlopes
  {
    BrushState(name, tilesetNames, slot, mode, 0, EmptyTable(TerrainKeys), {},
               EmptyTable(SlopeKeys), set k | k in SlopeKeys, {})
  }

  /** `.get(key, None)` on a table. */
  function Lookup(t: Table, key: string): (r: Option<int>)
    ensures key !in t ==> r.None?
    ensures key in t ==> r == t[key]
  {
    if key in t then t[key] else None
  }

  /** `set_terrain_tile`: a known key takes the id and becomes assigned; an
      unknown key changes nothing. */
  function SetTerrain(s: BrushState, position: string, id: int): (r: BrushState)
    ensures position in s.terrain ==>
      r == s.(terrain := s.terrain[position := Some(id)], terrainAssigned := s.terrainAssigned + {position})
    ensures position !in s.terrain ==> r == s
  {
    if position in s.terrain then
      s.(terrain := s.terrain[position := Some(id)], terrainAssigned := s.terrainAssigned + {position})
    else s
  }

  /** `set_slope_tile`, the same rule on the slope table. */
  function SetSlope(s: BrushState, slope: string, id: int): (r: BrushState)
    ensures slope in s.slopes ==>
      r == s.(slopes := s.slopes[slope := Some(id)], slopesAssigned := s.slopesAssigned + {slope})
    ensures slope !in s.slopes ==> r == s
  {
    if slope in s.slopes then
      s.(slopes := s.slopes[slope := Some(id)], slopesAssigned := s.slopesAssigned + {slope})
    else s
  }

  /** Setting a slot keeps the brush well formed, makes the slot read back the
      id, and leaves every other slot, the enabled set and the other table as
      they were. */
  lemma SettersLocal(s: BrushState, key: string, id: int, other: string)
    requires WellFormed(s) && other != key
    ensures var r := SetTerrain(s, key, id);
      WellFormed(r) && (IsTerrain(key) ==> Lookup(r.terrain, key) == Some(id) && key in r.terrainAssigned)
      && Lookup(r.terrain, other) == Lookup(s.terrain, other) && r.slopes == s.slopes
      && (other in r.terrainAssigned <==> other in s.terrainAssigned)
    ensures var r := SetSlope(s, key, id);
      WellFormed(r) && (IsSlope(key) ==> Lookup(r.slopes, key) == Some(id) && key in r.slopesAssigned)
      && Lookup(r.slopes, other) == Lookup(s.slopes, other) && r.terrain == s.terrain
      && r.enabledSlopes == s.enabledSlopes
      && (other in r.slopesAssigned <==> other in s.slopesAssigned)
  {
  }

  /** The first key of `keys`, in order, whose slot holds `id`. */
  function FirstWithId(t: Table, keys: seq<string>, id: int): (r: Option<string>)
    ensures r.Some? ==> r.value in keys && Lookup(t, r.value) == Some(id)
    ensures r.None? <==> forall i :: 0 <= i < |keys| ==> Lookup(t, keys[i]) != Some(id)
  {
    if keys == [] then None
    else if Lookup(t, keys[0]) == Some(id) then Some(keys[0])
    else FirstWithId(t, keys[1..], id)
  }

  /** A key `FirstWithId` finds has no earlier key holding the same id. */
  lemma {:induction false} FirstWithIdIsFirst(t: Table, keys: seq<string>, id: int, j: nat)
    requires FirstWithId(t, keys, id).Some? && j < |keys| && keys[j] == FirstWithId(t, keys, id).value
    requires Distinct(keys)
    ensures forall i :: 0 <= i < j ==> Lookup(t, keys[i]) != Some(id)
  {
    if Lookup(t, keys[0]) != Some(id) {
      assert j > 0;
      FirstWithIdIsFirst(t, keys[1..], id, j - 1);
      forall i | 0 < i < j ensures Lookup(t, keys[i]) != Some(id) {
        assert keys[i] == keys[1..][i - 1];
      }
    }
  }

  /** `get_tile_type_by_id`: the first terrain key holding the id, else the
      first slope key, else None. */
  function TypeById(s: BrushState, id: int): (r: Option<string>)
    ensures r.Some? && IsTerrain(r.value) ==> Lookup(s.terrain, r.value) == Some(id)
    ensures r.Some? && IsSlope(r.value) ==> Lookup(s.slopes, r.value) == Some(id)
    ensures r.None? <==> (forall k :: k in TerrainKeys ==> Lookup(s.terrain, k) != Some(id))
                         && (forall k :: k in SlopeKeys ==> Lookup(s.slopes, k) != Some(id))
  {
    KeysDistinct();
    match FirstWithId(s.terrain, TerrainKeys, id)
    case Some(k) => Some(k)
    case None => FirstWithId(s.slopes, SlopeKeys, id)
  }

  /** `get_tile_type_by_id` looks at the terrain keys first, in dict order,
      and only then at the slope keys: when some terrain key holds the id the
      result is the first such key, and otherwise it is the first slope key
      holding the id. */
  lemma TypeByIdFirst(s: BrushState, id: int)
    ensures var r := TypeById(s, id);
      && ((exists i :: 0 <= i < |TerrainKeys| && Lookup(s.terrain, TerrainKeys[i]) == Some(id)) ==>
            exists i :: 0 <= i < |TerrainKeys| && r == Some(TerrainKeys[i])
              && Lookup(s.terrain, TerrainKeys[i]) == Some(id)
              && forall j :: 0 <= j < i ==> Lookup(s.terrain, TerrainKeys[j]) != Some(id))
      && ((forall i :: 0 <= i < |TerrainKeys| ==> Lookup(s.terrain, TerrainKeys[i]) != Some(id)) && r.Some? ==>
            exists i :: 0 <= i < |SlopeKeys| && r == Some(SlopeKeys[i])
              && Lookup(s.slopes, SlopeKeys[i]) == Some(id)
              && forall j :: 0 <= j < i ==> Lookup(s.slopes, SlopeKeys[j]) != Some(id))
  {
    KeysDistinct();
    var ft := FirstWithId(s.terrain, TerrainKeys, id);
    if ft.Some? {
      var i :| 0 <= i < |TerrainKeys| && TerrainKeys[i] == ft.value;
      FirstWithIdIsFirst(s.terrain, TerrainKeys, id, i);
    } else {
      var fs := FirstWithId(s.slopes, SlopeKeys, id);
      if fs.Some? {
        var i :| 0 <= i < |SlopeKeys| && SlopeKeys[i] == fs.value;
        FirstWithIdIsFirst(s.slopes, SlopeKeys, id, i);
      }
    }
  }

  // ----- JSON -----

  /** A slot value in a preset file: `null` or a number. */
  datatype JsonSlot = JNull | JNum(n: int)

  /** A preset file's content. Fields that may be missing are optional. */
  datatype JsonBrush = JsonBrush(
    name: string,
    tilesetNames: Option<seq<string>>,
    slot: Option<string>,
    mode: Option<string>,
    priority: Option<int>,
    terrain: seq<(string, JsonSlot)>,
    slopes: seq<(string, JsonSlot)>)

  function EncodeTerrain(v: Option<int>): JsonSlot {
    if v.None? then JNull else JNum(v.value)
  }

  /** A slope's JSON value: -1 when disabled, null when enabled but
      unassigned, else its id. */
  function EncodeSlope(enabled: bool, v: Option<int>): (j: JsonSlot)
    ensures !enabled ==> j == JNum(-1)
    ensures enabled && v.None? ==> j == JNull
    ensures enabled && v.Some? ==> j == JNum(v.value)
  {
    if !enabled then JNum(-1) else if v.None? then JNull else JNum(v.value)
  }

  /** `to_json`: every field, terrain and slopes in table order. */
  function ToJson(s: BrushState): (j: JsonBrush)
    requires WellFormed(s)
    ensures |j.terrain| == |TerrainKeys| && |j.slopes| == |SlopeKeys|
    ensures forall i :: 0 <= i < |TerrainKeys| ==>
              j.terrain[i] == (TerrainKeys[i], EncodeTerrain(s.terrain[TerrainKeys[i]]))
    ensures forall i :: 0 <= i < |SlopeKeys| ==>
              j.slopes[i] == (SlopeKeys[i], EncodeSlope(SlopeKeys[i] in s.enabledSlopes, s.slopes[SlopeKeys[i]]))
  {
    JsonBrush(s.name, Some(s.tilesetNames), Some(s.slot), Some(s.mode), Some(s.priority),
      seq(|TerrainKeys|, i requires 0 <= i < |TerrainKeys| =>
        (TerrainKeys[i], EncodeTerrain(s.terrain[TerrainKeys[i]]))),
      seq(|SlopeKeys|, i requires 0 <= i < |SlopeKeys| =>
        (SlopeKeys[i], EncodeSlope(SlopeKeys[i] in s.enabledSlopes, s.slopes[SlopeKeys[i]]))))
  }

  /** What one slope item of a preset file does to the slope table, the
      enabled set and the assigned set. */
  datatype SlopeTables = SlopeTables(slopes: Table, enabled: set<string>, assignedKeys: set<string>)

  function ApplySlopeItem(t: SlopeTables, item: (string, JsonSlot)): SlopeTables {
    var (k, v) := item;
    if k !in t.slopes then t
    else if v == JNum(-1) then t.(slopes := t.slopes[k := None])
    else if v == JNull then t.(slopes := t.slopes[k := None], enabled := t.enabled + {k})
    else t.(slopes := t.slopes[k := Some(v.n)], enabled := t.enabled + {k}, assignedKeys := t.assignedKeys + {k})
  }

  function ApplySlopeItems(t: SlopeTables, items: seq<(string, JsonSlot)>): SlopeTables {
    if items == [] then t else ApplySlopeItem(ApplySlopeItems(t, items[..|items| - 1]), items[|items| - 1])
  }

  datatype TerrainTables = TerrainTables(terrain: Table, assignedKeys: set<string>)

  function ApplyTerrainItem(t: TerrainTables, item: (string, JsonSlot)): TerrainTables {
    var (k, v) := item;
    if k !in t.terrain then t
    else if v.JNum? then t.(terrain := t.terrain[k := Some(v.n)], assignedKeys := t.assignedKeys + {k})
    else t.(terrain := t.terrain[k := None])
  }

  function ApplyTerrainItems(t: TerrainTables, items: seq<(string, JsonSlot)>): TerrainTables {
    if items == [] then t else ApplyTerrainItem(ApplyTerrainItems(t, items[..|items| - 1]), items[|items| - 1])
  }

  /** `from_json`: defaults for missing fields, priority clamped to 0..9, the
      enabled set rebuilt from the slope items, then the terrain items. */
  function FromJson(data: JsonBrush): (s: BrushState)
    ensures 0 <= s.priority <= 9
    ensures s.name == data.name
    ensures s.slot == data.slot.GetOr("Pa0") && s.mode == data.mode.GetOr("SmartPaint")
  {
    var b := NewState(data.name, data.tilesetNames.GetOr([]), data.slot.GetOr("Pa0"), data.mode.GetOr("SmartPaint"));
    var st := ApplySlopeItems(SlopeTables(b.slopes, {}, {}), data.slopes);
    var tt := ApplyTerrainItems(TerrainTables(b.terrain, {}), data.terrain);
    b.(priority := Clamp(0, 9, data.priority.GetOr(0)),
       slopes := st.slopes, enabledSlopes := st.enabled, slopesAssigned := st.assignedKeys,
       terrain := tt.terrain, terrainAssigned := tt.assignedKeys)
  }

  /** One key's slot in the slope tables: its value (None when the key is not
      in the table), whether it is enabled, whether it is assigned. */
  function SlopeView(t: SlopeTables, k: string): (Option<Option<int>>, bool, bool) {
    (if k in t.slopes then Some(t.slopes[k]) else None, k in t.enabled, k in t.assignedKeys)
  }

  /** The effect of a slope item on its own key's slot. */
  function SlopeEffect(view: (Option<Option<int>>, bool, bool), v: JsonSlot): (Option<Option<int>>, bool, bool) {
    if view.0.None? then view
    else if v == JNum(-1) then (Some(None), view.1, view.2)
    else if v == JNull then (Some(None), true, view.2)
    else (Some(Some(v.n)), true, true)
  }

  predicate DistinctKeys(items: seq<(string, JsonSlot)>) {
    forall i, j :: 0 <= i < j < |items| ==> items[i].0 != items[j].0
  }

  /** With distinct keys, each key's slot ends as its own item makes it, and
      keys without an item keep their slot. */
  lemma {:induction false} SlopeItemsByKey(t: SlopeTables, items: seq<(string, JsonSlot)>, k: string)
    requires DistinctKeys(items)
    ensures forall i :: 0 <= i < |items| && items[i].0 == k ==>
              SlopeView(ApplySlopeItems(t, items), k) == SlopeEffect(SlopeView(t, k), items[i].1)
    ensures (forall i :: 0 <= i < |items| ==> items[i].0 != k) ==>
              SlopeView(ApplySlopeItems(t, items), k) == SlopeView(t, k)
  {
    if items != [] {
      var n := |items| - 1;
      var init := items[..n];
      assert DistinctKeys(init);
      SlopeItemsByKey(t, init, k);
      forall i | 0 <= i < |items| && items[i].0 == k
        ensures SlopeView(ApplySlopeItems(t, items), k) == SlopeEffect(SlopeView(t, k), items[i].1)
      {
        if i < n {
          assert init[i] == items[i];
          assert items[n].0 != k;
        } else {
          assert forall j :: 0 <= j < n ==> init[j].0 != k by {
            forall j | 0 <= j < n ensures init[j].0 != k { assert init[j] == items[j]; }
          }
        }
      }
      if forall i :: 0 <= i < |items| ==> items[i].0 != k {
        assert forall j :: 0 <= j < n ==> init[j].0 != k by {
          forall j | 0 <= j < n ensures init[j].0 != k { assert init[j] == items[j]; }
        }
      }
    }
  }

  /** The terrain analogue of `SlopeItemsByKey`. */
  lemma {:induction false} TerrainItemsByKey(t: TerrainTables, items: seq<(string, JsonSlot)>, k: string)
    requires DistinctKeys(items) && k in t.terrain
    ensures var r := ApplyTerrainItems(t, items);
      k in r.terrain
      && (forall i :: 0 <= i < |items| && items[i].0 == k ==>
            r.terrain[k] == (if items[i].1.JNum? then Some(items[i].1.n) else None)
            && (k in r.assignedKeys <==> items[i].1.JNum? || k in t.assignedKeys))
      && ((forall i :: 0 <= i < |items| ==> items[i].0 != k) ==>
            r.terrain[k] == t.terrain[k] && (k in r.assignedKeys <==> k in t.assignedKeys))
  {
    if items != [] {
      var n := |items| - 1;
      var init := items[..n];
      assert DistinctKeys(init);
      TerrainItemsByKey(t, init, k);
      forall j | 0 <= j < n ensures init[j] == items[j] { }
      if items[n].0 == k {
        assert forall j :: 0 <= j < n ==> init[j].0 != k;
      }
    }
  }

  lemma {:induction false} SlopeItemsKeepKeys(t: SlopeTables, items: seq<(string, JsonSlot)>)
    ensures forall k :: k in ApplySlopeItems(t, items).slopes <==> k in t.slopes
  {
    if items != [] { SlopeItemsKeepKeys(t, items[..|items| - 1]); }
  }

  lemma {:induction false} TerrainItemsKeepKeys(t: TerrainTables, items: seq<(string, JsonSlot)>)
    ensures forall k :: k in ApplyTerrainItems(t, items).terrain <==> k in t.terrain
  {
    if items != [] { TerrainItemsKeepKeys(t, items[..|items| - 1]); }
  }

  lemma {:induction false} SlopeItemsOnlyKnown(t: SlopeTables, items: seq<(string, JsonSlot)>)
    requires forall k :: k in t.enabled || k in t.assignedKeys ==> k in t.slopes
    ensures var r := ApplySlopeItems(t, items); forall k :: k in r.enabled || k in r.assignedKeys ==> k in t.slopes
  {
    if items != [] {
      SlopeItemsOnlyKnown(t, items[..|items| - 1]);
      SlopeItemsKeepKeys(t, items[..|items| - 1]);
    }
  }

  lemma {:induction false} TerrainItemsOnlyKnown(t: TerrainTables, items: seq<(string, JsonSlot)>)
    requires forall k :: k in t.assignedKeys ==> k in t.terrain
    ensures var r := ApplyTerrainItems(t, items); forall k :: k in r.assignedKeys ==> k in t.terrain
  {
    if items != [] {
      TerrainItemsOnlyKnown(t, items[..|items| - 1]);
      TerrainItemsKeepKeys(t, items[..|items| - 1]);
    }
  }

  /** `from_json` always yields a well-formed brush. */
  lemma FromJsonWellFormed(data: JsonBrush)
    ensures WellFormed(FromJson(data))
  {
    var b := NewState(data.name, data.tilesetNames.GetOr([]), data.slot.GetOr("Pa0"), data.mode.GetOr("SmartPaint"));
    SlopeItemsKeepKeys(SlopeTables(b.slopes, {}, {}), data.slopes);
    SlopeItemsOnlyKnown(SlopeTables(b.slopes, {}, {}), data.slopes);
    TerrainItemsKeepKeys(TerrainTables(b.terrain, {}), data.terrain);
    TerrainItemsOnlyKnown(TerrainTables(b.terrain, {}), data.terrain);
  }

  lemma ToJsonKeysDistinct(s: BrushState)
    requires WellFormed(s)
    ensures DistinctKeys(ToJson(s).terrain) && DistinctKeys(ToJson(s).slopes)
  {
    KeysDistinct();
  }

  /** No enabled slope holds the id -1, which the JSON form reserves for
      "disabled". */
  predicate NoReservedSlopeId(s: BrushState) {
    forall k :: k in s.slopes && k in s.enabledSlopes && s.slopes[k].Some? ==> s.slopes[k].value != -1
  }

  /** How `from_json` reads one slope item with a known key. */
  lemma FromJsonSlope(data: JsonBrush, i: nat)
    requires DistinctKeys(data.slopes) && i < |data.slopes| && IsSlope(data.slopes[i].0)
    ensures var (k, v) := data.slopes[i]; var r := FromJson(data);
      k in r.slopes && r.slopes[k] == (if v.JNum? && v != JNum(-1) then Some(v.n) else None)
      && (k in r.enabledSlopes <==> v != JNum(-1))
      && (k in r.slopesAssigned <==> v.JNum? && v != JNum(-1))
  {
    var b := NewState(data.name, data.tilesetNames.GetOr([]), data.slot.GetOr("Pa0"), data.mode.GetOr("SmartPaint"));
    var k := data.slopes[i].0;
    SlopeItemsByKey(SlopeTables(b.slopes, {}, {}), data.slopes, k);
  }

  /** How `from_json` reads one terrain item with a known key. */
  lemma FromJsonTerrain(data: JsonBrush, i: nat)
    requires DistinctKeys(data.terrain) && i < |data.terrain| && IsTerrain(data.terrain[i].0)
    ensures var (k, v) := data.terrain[i]; var r := FromJson(data);
      k in r.terrain && r.terrain[k] == (if v.JNum? then Some(v.n) else None) && (k in r.terrainAssigned <==> v.JNum?)
  {
    var b := NewState(data.name, data.tilesetNames.GetOr([]), data.slot.GetOr("Pa0"), data.mode.GetOr("SmartPaint"));
    var k := data.terrain[i].0;
    TerrainItemsByKey(TerrainTables(b.terrain, {}), data.terrain, k);
  }

  /** The slope half of the round trip, one slope at a time. */
  lemma SlopeRoundTrip(s: BrushState, k: string)
    requires WellFormed(s) && NoReservedSlopeId(s) && IsSlope(k)
    ensures var r := FromJson(ToJson(s));
      k in r.slopes && r.slopes[k] == (if k in s.enabledSlopes then s.slopes[k] else None)
      && (k in r.enabledSlopes <==> k in s.enabledSlopes)
      && (k in r.slopesAssigned <==> k in s.enabledSlopes && s.slopes[k].Some?)
  {
    var j := ToJson(s);
    ToJsonKeysDistinct(s);
    var i :| 0 <= i < |SlopeKeys| && SlopeKeys[i] == k;
    assert j.slopes[i] == (k, EncodeSlope(k in s.enabledSlopes, s.slopes[k]));
    FromJsonSlope(j, i);
  }

  /** The terrain half of the round trip, one position at a time. */
  lemma TerrainRoundTrip(s: BrushState, k: string)
    requires WellFormed(s) && IsTerrain(k)
    ensures var r := FromJson(ToJson(s));
      k in r.terrain && r.terrain[k] == s.terrain[k] && (k in r.terrainAssigned <==> s.terrain[k].Some?)
  {
    var j := ToJson(s);
    ToJsonKeysDistinct(s);
    var i :| 0 <= i < |TerrainKeys| && TerrainKeys[i] == k;
    assert j.terrain[i] == (k, EncodeTerrain(s.terrain[k]));
    FromJsonTerrain(j, i);
  }

  /** Saving and loading a brush keeps its name, tilesets, slot, mode, terrain
      and enabled slopes and the ids of enabled slopes; disabled slopes lose
      their ids, priority is clamped, and the assigned sets become exactly the
      slots that hold an id. */
  lemma JsonRoundTrip(s: BrushState)
    requires WellFormed(s) && NoReservedSlopeId(s)
    ensures var r := FromJson(ToJson(s));
      WellFormed(r)
      && r.name == s.name && r.tilesetNames == s.tilesetNames && r.slot == s.slot && r.mode == s.mode
      && r.priority == Clamp(0, 9, s.priority)
      && r.terrain == s.terrain
      && r.enabledSlopes == s.enabledSlopes
      && (forall k :: IsSlope(k) ==> r.slopes[k] == (if k in s.enabledSlopes then s.slopes[k] else None))
      && (forall k :: k in r.terrainAssigned <==> k in s.terrain && s.terrain[k].Some?)
      && (forall k :: k in r.slopesAssigned <==> k in s.enabledSlopes && s.slopes[k].Some?)
  {
    FromJsonWellFormed(ToJson(s));
    JsonRoundTripSlopes(s);
    JsonRoundTripTerrain(s);
  }

  lemma JsonRoundTripSlopes(s: BrushState)
    requires WellFormed(s) && NoReservedSlopeId(s)
    ensures var r := FromJson(ToJson(s));
      r.enabledSlopes == s.enabledSlopes
      && (forall k :: IsSlope(k) ==> k in r.slopes && r.slopes[k] == (if k in s.enabledSlopes then s.slopes[k] else None))
      && (forall k :: k in r.slopesAssigned <==> k in s.enabledSlopes && s.slopes[k].Some?)
  {
    var r := FromJson(ToJson(s));
    FromJsonWellFormed(ToJson(s));
    forall k | IsSlope(k)
      ensures k in r.slopes && r.slopes[k] == (if k in s.enabledSlopes then s.slopes[k] else None)
      ensures k in r.enabledSlopes <==> k in s.enabledSlopes
      ensures k in r.slopesAssigned <==> k in s.enabledSlopes && s.slopes[k].Some?
    {
      SlopeRoundTrip(s, k);
    }
    assert r.enabledSlopes == s.enabledSlopes;
  }

  lemma JsonRoundTripTerrain(s: BrushState)
    requires WellFormed(s)
    ensures var r := FromJson(ToJson(s));
      r.terrain == s.terrain
      && (forall k :: k in r.terrainAssigned <==> k in s.terrain && s.terrain[k].Some?)
  {
    var r := FromJson(ToJson(s));
    FromJsonWellFormed(ToJson(s));
    forall k | IsTerrain(k)
      ensures k in r.terrain && r.terrain[k] == s.terrain[k]
      ensures k in r.terrainAssigned <==> s.terrain[k].Some?
    {
      TerrainRoundTrip(s, k);
    }
    assert r.terrain == s.terrain;
  }

  /** The brush object. Methods keep `State()` in step with the operations
      above. */
  class SmartBrush {
    var name: string
    var tilesetNames: seq<string>
    var slot: string
    var mode: string
    var priority: int
    var terrain: Table
    var terrainAssigned: set<string>
    var slopes: Table
    var enabledSlopes: set<string>
    var slopesAssigned: set<string>

    function State(): BrushState
      reads this
    {
      BrushState(name, tilesetNames, slot, mode, priority, terrain, terrainAssigned, slopes, enabledSlopes, slopesAssigned)
    }

    constructor (name: string, tilesetNames: seq<string>, slot: string, mode: string)
      ensures State() == NewState(name, tilesetNames, slot, mode)
    {
      var s := NewState(name, tilesetNames, slot, mode);
      this.name, this.tilesetNames, this.slot, this.mode := name, tilesetNames, slot, mode;
      priority := 0;
      terrain, terrainAssigned := s.terrain, {};
      slopes, enabledSlopes, slopesAssigned := s.slopes, s.enabledSlopes, {};
    }

    /** Writes a whole state into the fields (used by `copy` and `from_json`). */
    method Assign(s: BrushState)
      modifies this
      ensures State() == s
    {
      name, tilesetNames, slot, mode, priority := s.name, s.tilesetNames, s.slot, s.mode, s.priority;
      terrain, terrainAssigned := s.terrain, s.terrainAssigned;
      slopes, enabledSlopes, slopesAssigned := s.slopes, s.enabledSlopes, s.slopesAssigned;
    }

    /** `get_terrain_tile`. */
    function TerrainTile(position: string): Option<int>
      reads this
    {
      Lookup(terrain, position)
    }

    /** `get_slope_tile`. */
    function SlopeTile(slope: string): Option<int>
      reads this
    {
      Lookup(slopes, slope)
    }

    method SetTerrainTile(position: string, id: int)
      modifies this
      ensures State() == SetTerrain(old(State()), position, id)
    {
      if position in terrain {
        terrain := terrain[position := Some(id)];
        terrainAssigned := terrainAssigned + {position};
      }
    }

    method SetSlopeTile(slope: string, id: int)
      modifies this
      ensures State() == SetSlope(old(State()), slope, id)
    {
      if slope in slopes {
        slopes := slopes[slope := Some(id)];
        slopesAssigned := slopesAssigned + {slope};
      }
    }

    /** `get_tile_type_by_id`: the terrain loop, then the slope loop. */
    method GetTileTypeById(id: int) returns (r: Option<string>)
      ensures r == TypeById(State(), id)
    {
      r := FindId(terrain, TerrainKeys, id);
      if r.None? {
        r := FindId(slopes, SlopeKeys, id);
      }
    }

    /** `copy`: a new brush with equal fields. Tables and sets are values here,
        so the copy shares nothing that either side can change. */
    method Copy() returns (b: SmartBrush)
      ensures fresh(b) && b.State() == State()
    {
      b := new SmartBrush(name, tilesetNames, slot, mode);
      b.Assign(State());
    }
  }

  /** One of the `for key, obj_id in table.items()` loops of
      `get_tile_type_by_id`. */
  method FindId(t: Table, keys: seq<string>, id: int) returns (r: Option<string>)
    ensures r == FirstWithId(t, keys, id)
  {
    var i := 0;
    while i < |keys|
      invariant 0 <= i <= |keys|
      invariant FirstWithId(t, keys, id) == FirstWithId(t, keys[i..], id)
    {
      assert keys[i..][1..] == keys[i + 1..];
      if Lookup(t, keys[i]) == Some(id) {
        return Some(keys[i]);
      }
      i := i + 1;
    }
    r := None;
  }

  /** The slope loop of `from_json`, on the tables it updates. */
  method LoadSlopes(t: SlopeTables, items: seq<(string, JsonSlot)>) returns (r: SlopeTables)
    ensures r == ApplySlopeItems(t, items)
  {
    var slopes, enabled, assignedKeys := t.slopes, t.enabled, t.assignedKeys;
    var i := 0;
    while i < |items|
      invariant 0 <= i <= |items|
      invariant SlopeTables(slopes, enabled, assignedKeys) == ApplySlopeItems(t, items[..i])
    {
      assert items[..i + 1][..i] == items[..i];
      var (k, v) := items[i];
      if k in slopes {
        if v == JNum(-1) {
          slopes := slopes[k := None];
        } else if v == JNull {
          slopes := slopes[k := None];
          enabled := enabled + {k};
        } else {
          slopes := slopes[k := Some(v.n)];
          enabled := enabled + {k};
          assignedKeys := assignedKeys + {k};
        }
      }
      i := i + 1;
    }
    assert items[..|items|] == items;
    r := SlopeTables(slopes, enabled, assignedKeys);
  }

  /** The terrain loop of `from_json`. */
  method LoadTerrain(t: TerrainTables, items: seq<(string, JsonSlot)>) returns (r: TerrainTables)
    ensures r == ApplyTerrainItems(t, items)
  {
    var terrain, assignedKeys := t.terrain, t.assignedKeys;
    var i := 0;
    while i < |items|
      invariant 0 <= i <= |items|
      invariant TerrainTables(terrain, assignedKeys) == ApplyTerrainItems(t, items[..i])
    {
      assert items[..i + 1][..i] == items[..i];
      var (k, v) := items[i];
      if k in terrain {
        if v.JNum? {
          terrain := terrain[k := Some(v.n)];
          assignedKeys := assignedKeys + {k};
        } else {
          terrain := terrain[k := None];
        }
      }
      i := i + 1;
    }
    assert items[..|items|] == items;
    r := TerrainTables(terrain, assignedKeys);
  }

  /** `from_json`: a new brush, then the slope and terrain loops. */
  method LoadFromJson(data: JsonBrush) returns (b: SmartBrush)
    ensures fresh(b) && b.State() == FromJson(data)
  {
    var s := NewState(data.name, data.tilesetNames.GetOr([]), data.slot.GetOr("Pa0"), data.mode.GetOr("SmartPaint"));
    var st := LoadSlopes(SlopeTables(s.slopes, {}, {}), data.slopes);
    var tt := LoadTerrain(TerrainTables(s.terrain, {}), data.terrain);
    b := new SmartBrush(data.name, data.tilesetNames.GetOr([]), data.slot.GetOr("Pa0"), data.mode.GetOr("SmartPaint"));
    b.Assign(s.(priority := Clamp(0, 9, data.priority.GetOr(0)),
                slopes := st.slopes, enabledSlopes := st.enabled, slopesAssigned := st.assignedKeys,
                terrain := tt.terrain, terrainAssigned := tt.assignedKeys));
  }
}
