/** The brush-editing parts of the Quick Paint panel (quickpaint/ui/widget.py):
    the painting-mode name, the slope check boxes, assigning the selected
    object to a clicked position, and listing and choosing presets by slot,
    tileset and priority. The tileset selector's current object and the
    check boxes' states are inputs; `matches_tileset` is a regular-expression
    match and is taken as a given predicate. */
module Widget {
  import opened Common
  import opened Tiles
  import opened Brush
  import opened Presets

  // ---------------------------------------------------------------------
  // Mode names
  // ---------------------------------------------------------------------

  /** The hotkey suffix " (" starts at index `i` of `s`. */
  predicate OpensAt(s: string, i: int) {
    0 <= i && i + 1 < |s| && s[i] == ' ' && s[i + 1] == '('
  }

  /** `mode.split(" (")[0]`: the text before the first " (", or all of it. */
  function BaseMode(mode: string): (r: string)
    ensures |r| <= |mode|
  {
    if |mode| < 2 then mode
    else if mode[0] == ' ' && mode[1] == '(' then []
    else [mode[0]] + BaseMode(mode[1..])
  }

  /** The base name is a prefix of the combo text with no " (" inside it, and
      it stops either at the end of the text or exactly where the first " ("
      begins. */
  lemma {:induction false} BaseModeIsFirstPiece(mode: string)
    ensures var r := BaseMode(mode);
      r == mode[..|r|]
      && (forall i :: 0 <= i < |r| ==> !OpensAt(r, i))
      && (forall i :: 0 <= i < |r| ==> !OpensAt(mode, i))
      && (r == mode || OpensAt(mode, |r|))
  {
    if |mode| >= 2 && !(mode[0] == ' ' && mode[1] == '(') {
      var t := mode[1..];
      BaseModeIsFirstPiece(t);
      var rt := BaseMode(t);
      var r := BaseMode(mode);
      assert r == [mode[0]] + rt;
      forall i | 0 <= i < |r|
        ensures !OpensAt(mode, i)
      {
        if i > 0 {
          assert OpensAt(mode, i) ==> OpensAt(t, i - 1);
        }
      }
      forall i | 0 <= i < |r|
        ensures !OpensAt(r, i)
      {
        if OpensAt(r, i) {
          assert r[i] == mode[i] && r[i + 1] == mode[i + 1];
          assert OpensAt(mode, i);
        }
      }
      if rt != t {
        assert OpensAt(t, |rt|);
        assert OpensAt(mode, |r|);
      }
    }
  }

  /** A text without " (" is its own base name, and taking the base name
      twice changes nothing. */
  lemma {:induction false} BaseModeIdempotent(mode: string)
    ensures (forall i :: 0 <= i < |mode| ==> !OpensAt(mode, i)) ==> BaseMode(mode) == mode
    ensures BaseMode(BaseMode(mode)) == BaseMode(mode)
  {
    if |mode| >= 2 {
      if !(mode[0] == ' ' && mode[1] == '(') {
        BaseModeIdempotent(mode[1..]);
        var r := BaseMode(mode);
        var rt := BaseMode(mode[1..]);
        assert r == [mode[0]] + rt;
        if |r| >= 2 {
          if r[0] == ' ' && r[1] == '(' {
            BaseModeIsFirstPiece(mode);
            assert OpensAt(r, 0);
          }
          assert r[1..] == rt;
        }
        if forall i :: 0 <= i < |mode| ==> !OpensAt(mode, i) {
          forall i | 0 <= i < |mode[1..]|
            ensures !OpensAt(mode[1..], i)
          {
            assert OpensAt(mode[1..], i) ==> OpensAt(mode, i + 1);
          }
        }
      } else {
        assert OpensAt(mode, 0);
      }
    }
  }

  // ---------------------------------------------------------------------
  // Slope check boxes and tile assignment
  // ---------------------------------------------------------------------

  /** The brush after the assigned slopes among `ks` are cleared the way
      `on_slope_flag_changed` clears them: unassigned, with id 0. */
  function DropSlopes(s: BrushState, ks: set<string>): (r: BrushState)
  {
    var dropped := ks * s.slopesAssigned;
    s.(slopes := map k | k in s.slopes.Keys + dropped :: if k in dropped then Some(0) else s.slopes[k],
       slopesAssigned := s.slopesAssigned - dropped)
  }

  /** The brush after `on_slope_flag_changed` with the given check boxes
      ticked: slopes that were enabled and are now unticked are dropped, and
      the enabled set becomes the ticked set. */
  function PruneSlopes(s: BrushState, ticked: set<string>): (r: BrushState)
  {
    DropSlopes(s, s.enabledSlopes - ticked).(enabledSlopes := ticked)
  }

  /** What pruning does to each slope: an unticked, previously enabled and
      assigned slope reads back id 0 (not "unassigned") and is no longer
      assigned; every other slope keeps its id and its assignment; the
      terrain is untouched, and a well-formed brush stays well formed when
      only slope keys are ticked. */
  lemma PruneSlopesEffect(s: BrushState, ticked: set<string>, k: string)
    ensures var r := PruneSlopes(s, ticked);
      var dropped := k in s.enabledSlopes && k !in ticked && k in s.slopesAssigned;
      r.enabledSlopes == ticked
      && (dropped ==> Lookup(r.slopes, k) == Some(0) && k !in r.slopesAssigned)
      && (!dropped ==> Lookup(r.slopes, k) == Lookup(s.slopes, k) && (k in r.slopesAssigned <==> k in s.slopesAssigned))
      && r.terrain == s.terrain && r.terrainAssigned == s.terrainAssigned
    ensures WellFormed(s) && (forall t :: t in ticked ==> IsSlope(t)) ==> WellFormed(PruneSlopes(s, ticked))
  {
  }

  /** A pruned slope is saved as disabled: its JSON slot is -1 whatever id it
      was given. */
  lemma PrunedSlopeSavedDisabled(s: BrushState, ticked: set<string>, k: string)
    requires k in s.enabledSlopes && k !in ticked && k in s.slopesAssigned
    ensures EncodeSlope(k in PruneSlopes(s, ticked).enabledSlopes, Lookup(PruneSlopes(s, ticked).slopes, k)) == JNum(-1)
  {
  }

  /** `on_tile_selected_from_canvas` once a brush and an object are selected:
      the 13 terrain names go to the terrain table, every other name to the
      slope table. */
  function AssignTile(s: BrushState, position: string, id: int): (r: BrushState)
  {
    if position in TerrainKeys then SetTerrain(s, position, id) else SetSlope(s, position, id)
  }

  /** On a well-formed brush, a terrain name sets that terrain slot, a slope
      name that slope slot, and any other name (such as "floor_covered")
      changes nothing; the result is well formed. */
  lemma AssignTileEffect(s: BrushState, position: string, id: int)
    requires WellFormed(s)
    ensures var r := AssignTile(s, position, id);
      WellFormed(r)
      && (IsTerrain(position) ==> Lookup(r.terrain, position) == Some(id) && position in r.terrainAssigned && r.slopes == s.slopes)
      && (IsSlope(position) ==> Lookup(r.slopes, position) == Some(id) && position in r.slopesAssigned && r.terrain == s.terrain)
      && (!IsTerrain(position) && !IsSlope(position) ==> r == s)
  {
    KeysDistinct();
  }

  /** A canvas click reaches the handler twice (through the signal and by a
      direct call); the second call changes nothing. */
  lemma AssignTileTwice(s: BrushState, position: string, id: int)
    ensures AssignTile(AssignTile(s, position, id), position, id) == AssignTile(s, position, id)
  {
    var r := AssignTile(s, position, id);
    if position in TerrainKeys {
      if position in s.terrain {
        assert r.terrain[position := Some(id)] == r.terrain;
        assert r.terrainAssigned + {position} == r.terrainAssigned;
      }
    } else if position in s.slopes {
      assert r.slopes[position := Some(id)] == r.slopes;
      assert r.slopesAssigned + {position} == r.slopesAssigned;
    }
  }

  /** Dropping one more slope is one table write and one set removal, or
      nothing when that slope is not assigned. */
  lemma DropOneMore(s: BrushState, done: set<string>, k: string)
    requires k !in done
    ensures var r := DropSlopes(s, done);
      var r2 := DropSlopes(s, done + {k});
      (k in r.slopesAssigned <==> k in s.slopesAssigned)
      && (k in s.slopesAssigned ==> r2 == r.(slopes := r.slopes[k := Some(0)], slopesAssigned := r.slopesAssigned - {k}))
      && (k !in s.slopesAssigned ==> r2 == r)
  {
    var r := DropSlopes(s, done);
    var r2 := DropSlopes(s, done + {k});
    if k in s.slopesAssigned {
      assert r2.slopes == r.slopes[k := Some(0)];
      assert r2.slopesAssigned == r.slopesAssigned - {k};
    } else {
      assert r2.slopes == r.slopes;
      assert r2.slopesAssigned == r.slopesAssigned;
    }
  }

  /** The loop of `on_slope_flag_changed` over the unticked slopes. */
  method ClearDisabledSlopes(b: SmartBrush, disabled: set<string>)
    modifies b
    ensures b.State() == DropSlopes(old(b.State()), disabled)
  {
    ghost var s0 := b.State();
    var rest := disabled;
    while rest != {}
      invariant rest <= disabled
      invariant b.State() == DropSlopes(s0, disabled - rest)
      decreases |rest|
    {
      var k :| k in rest;
      ghost var before := b.State();
      DropOneMore(s0, disabled - rest, k);
      if k in b.slopesAssigned {
        b.slopesAssigned := b.slopesAssigned - {k};
        b.slopes := b.slopes[k := Some(0)];
        assert b.State() == before.(slopes := before.slopes[k := Some(0)], slopesAssigned := before.slopesAssigned - {k});
      }
      assert disabled - (rest - {k}) == (disabled - rest) + {k};
      rest := rest - {k};
    }
  }

  /** The parts of the panel's state these handlers use. */
  class QuickPaintWidget {
    var currentMode: string
    var currentBrush: SmartBrush?
    /** `tileset_selector.selected_object_id`. */
    var selectedObjectId: Option<int>

    constructor (brush: SmartBrush?)
      ensures currentMode == "SmartPaint" && currentBrush == brush && selectedObjectId == None
    {
      currentMode := "SmartPaint";
      currentBrush := brush;
      selectedObjectId := None;
    }

    /** `on_mode_changed`: stores the base name of the chosen entry. */
    method OnModeChanged(mode: string)
      modifies this
      ensures currentMode == BaseMode(mode)
      ensures currentBrush == old(currentBrush) && selectedObjectId == old(selectedObjectId)
    {
      currentMode := BaseMode(mode);
    }

    /** `on_slope_flag_changed`, with `ticked` the names whose check boxes
        are ticked. */
    method OnSlopeFlagChanged(ticked: set<string>)
      modifies currentBrush
      ensures currentBrush != null ==> currentBrush.State() == PruneSlopes(old(currentBrush.State()), ticked)
    {
      if currentBrush == null {
        return;
      }
      ClearDisabledSlopes(currentBrush, currentBrush.enabledSlopes - ticked);
      currentBrush.enabledSlopes := ticked;
    }

    /** `on_tile_selected_from_canvas(position_type)`: nothing happens
        without a brush or a selected object. */
    method OnTileSelectedFromCanvas(position: string)
      modifies currentBrush
      ensures currentBrush != null && selectedObjectId.None? ==> currentBrush.State() == old(currentBrush.State())
      ensures currentBrush != null && selectedObjectId.Some? ==>
        currentBrush.State() == AssignTile(old(currentBrush.State()), position, selectedObjectId.value)
    {
      if currentBrush == null || selectedObjectId.None? {
        return;
      }
      if position in TerrainKeys {
        currentBrush.SetTerrainTile(position, selectedObjectId.value);
      } else {
        currentBrush.SetSlopeTile(position, selectedObjectId.value);
      }
    }
  }

  // ---------------------------------------------------------------------
  // Preset lists
  // ---------------------------------------------------------------------

  /** The filter of `load_presets` (`anyTileset` true: with no tileset name
      loaded every preset of the slot is listed) and of
      `find_matching_preset` (`anyTileset` false: the preset must match). */
  predicate Keep(p: BrushState, slot: string, tileset: string, matches: (BrushState, string) -> bool, anyTileset: bool) {
    p.slot == slot && ((anyTileset && tileset == "") || matches(p, tileset))
  }

  /** The kept presets, in the dict's order. */
  function Selected(d: Dict, keys: seq<string>, slot: string, tileset: string,
                    matches: (BrushState, string) -> bool, anyTileset: bool): (r: seq<BrushState>)
    requires forall k :: k in keys ==> k in d.entries
    ensures |r| <= |keys|
  {
    if keys == [] then []
    else
      var last := d.entries[keys[|keys| - 1]];
      Selected(d, keys[..|keys| - 1], slot, tileset, matches, anyTileset)
      + (if Keep(last, slot, tileset, matches, anyTileset) then [last] else [])
  }

  /** A preset is selected iff some key holds it and it passes the filter. */
  lemma {:induction false} SelectedMembers(d: Dict, keys: seq<string>, slot: string, tileset: string,
                                           matches: (BrushState, string) -> bool, anyTileset: bool, p: BrushState)
    requires forall k :: k in keys ==> k in d.entries
    ensures p in Selected(d, keys, slot, tileset, matches, anyTileset) <==>
      Keep(p, slot, tileset, matches, anyTileset) && exists k :: k in keys && d.entries[k] == p
  {
    if keys != [] {
      var init := keys[..|keys| - 1];
      SelectedMembers(d, init, slot, tileset, matches, anyTileset, p);
      if exists k :: k in keys && d.entries[k] == p {
        var k :| k in keys && d.entries[k] == p;
        if k != keys[|keys| - 1] {
          assert k in init;
        }
      }
      forall k | k in init
        ensures k in keys
      {
      }
    }
  }

  /** The preset loop shared by `load_presets` and `find_matching_preset`. */
  method CollectPresets(d: Dict, slot: string, tileset: string,
                        matches: (BrushState, string) -> bool, anyTileset: bool)
    returns (found: seq<BrushState>)
    requires OrderedKeys(d)
    ensures found == Selected(d, d.order, slot, tileset, matches, anyTileset)
  {
    found := [];
    var i := 0;
    while i < |d.order|
      invariant 0 <= i <= |d.order|
      invariant found == Selected(d, d.order[..i], slot, tileset, matches, anyTileset)
    {
      assert d.order[..i + 1][..i] == d.order[..i];
      var p := d.entries[d.order[i]];
      if Keep(p, slot, tileset, matches, anyTileset) {
        found := found + [p];
      }
      i := i + 1;
    }
    assert d.order[..i] == d.order;
  }

  // Stable sort by descending priority.

  /** Inserts before the first preset whose priority is not higher. */
  function InsertByPriority(p: BrushState, t: seq<BrushState>): (r: seq<BrushState>)
    ensures |r| == |t| + 1
  {
    if t == [] || t[0].priority <= p.priority then [p] + t
    else [t[0]] + InsertByPriority(p, t[1..])
  }

  /** `sorted(presets, key=priority, reverse=True)`. */
  function SortByPriority(ps: seq<BrushState>): (r: seq<BrushState>)
    ensures |r| == |ps|
  {
    if ps == [] then [] else InsertByPriority(ps[0], SortByPriority(ps[1..]))
  }

  predicate Descending(s: seq<BrushState>) {
    forall i, j :: 0 <= i < j < |s| ==> s[i].priority >= s[j].priority
  }

  /** The presets of priority `k`, in order. */
  function WithPriority(s: seq<BrushState>, k: int): (r: seq<BrushState>)
    ensures |r| <= |s|
  {
    if s == [] then []
    else (if s[0].priority == k then [s[0]] else []) + WithPriority(s[1..], k)
  }

  lemma {:induction false} InsertPermutes(p: BrushState, t: seq<BrushState>)
    ensures multiset(InsertByPriority(p, t)) == multiset(t) + multiset{p}
  {
    if !(t == [] || t[0].priority <= p.priority) {
      InsertPermutes(p, t[1..]);
      assert t == [t[0]] + t[1..];
    }
  }

  lemma {:induction false} InsertDescending(p: BrushState, t: seq<BrushState>)
    requires Descending(t)
    ensures Descending(InsertByPriority(p, t))
  {
    if !(t == [] || t[0].priority <= p.priority) {
      var r1 := InsertByPriority(p, t[1..]);
      InsertDescending(p, t[1..]);
      InsertPermutes(p, t[1..]);
      var r := [t[0]] + r1;
      forall j | 0 <= j < |r1|
        ensures t[0].priority >= r1[j].priority
      {
        assert r1[j] in multiset(r1);
        if r1[j] != p {
          assert r1[j] in multiset(t[1..]);
          var m :| 0 <= m < |t[1..]| && t[1..][m] == r1[j];
          assert t[m + 1] == r1[j];
        }
      }
      forall i, j | 0 <= i < j < |r|
        ensures r[i].priority >= r[j].priority
      {
        assert r[j] == r1[j - 1];
        if i > 0 { assert r[i] == r1[i - 1]; }
      }
    }
  }

  lemma {:induction false} InsertStable(p: BrushState, t: seq<BrushState>, k: int)
    ensures WithPriority(InsertByPriority(p, t), k) == (if p.priority == k then [p] else []) + WithPriority(t, k)
  {
    var r := InsertByPriority(p, t);
    var b := if p.priority == k then [p] else [];
    if t == [] || t[0].priority <= p.priority {
      assert r[1..] == t;
      assert WithPriority(r, k) == b + WithPriority(t, k);
    } else {
      var r1 := InsertByPriority(p, t[1..]);
      InsertStable(p, t[1..], k);
      assert r[0] == t[0] && r[1..] == r1;
      var a := if t[0].priority == k then [t[0]] else [];
      assert WithPriority(r, k) == a + WithPriority(r1, k);
      assert WithPriority(t, k) == a + WithPriority(t[1..], k);
      assert a == [] || b == [];
      assert a + (b + WithPriority(t[1..], k)) == b + (a + WithPriority(t[1..], k));
    }
  }

  /** The sort is a permutation, in descending priority, and stable: the
      presets of each priority keep their relative order. */
  lemma SortFacts(ps: seq<BrushState>, k: int)
    ensures multiset(SortByPriority(ps)) == multiset(ps)
    ensures Descending(SortByPriority(ps))
    ensures WithPriority(SortByPriority(ps), k) == WithPriority(ps, k)
  {
    SortPermutes(ps);
    SortDescending(ps);
    SortStable(ps, k);
  }

  lemma {:induction false} SortPermutes(ps: seq<BrushState>)
    ensures multiset(SortByPriority(ps)) == multiset(ps)
  {
    if ps != [] {
      SortPermutes(ps[1..]);
      InsertPermutes(ps[0], SortByPriority(ps[1..]));
      assert ps == [ps[0]] + ps[1..];
    }
  }

  lemma {:induction false} SortDescending(ps: seq<BrushState>)
    ensures Descending(SortByPriority(ps))
  {
    if ps != [] {
      SortDescending(ps[1..]);
      InsertDescending(ps[0], SortByPriority(ps[1..]));
    }
  }

  lemma {:induction false} SortStable(ps: seq<BrushState>, k: int)
    ensures WithPriority(SortByPriority(ps), k) == WithPriority(ps, k)
  {
    if ps != [] {
      SortStable(ps[1..], k);
      InsertStable(ps[0], SortByPriority(ps[1..]), k);
    }
  }

  /** The first preset of priority `k`, if any, is the earliest of them. */
  lemma {:induction false} WithPriorityHead(s: seq<BrushState>, k: int)
    requires WithPriority(s, k) != []
    ensures exists i ::
      0 <= i < |s| && s[i] == WithPriority(s, k)[0] && s[i].priority == k && forall j :: 0 <= j < i ==> s[j].priority != k
  {
    if s[0].priority != k {
      WithPriorityHead(s[1..], k);
      var i :| 0 <= i < |s[1..]| && s[1..][i] == WithPriority(s[1..], k)[0] && s[1..][i].priority == k
        && forall j :: 0 <= j < i ==> s[1..][j].priority != k;
      assert s[i + 1] == WithPriority(s, k)[0];
      forall j | 0 <= j < i + 1
        ensures s[j].priority != k
      {
        if j > 0 { assert s[j] == s[1..][j - 1]; }
      }
    } else {
      assert s[0] == WithPriority(s, k)[0];
    }
  }

  /** The head of the sorted list has the highest priority, and among the
      presets of that priority it is the first in the input order. */
  lemma SortHead(ps: seq<BrushState>)
    requires ps != []
    ensures var h := SortByPriority(ps)[0];
      h in ps && (forall q :: q in ps ==> q.priority <= h.priority)
      && exists i :: 0 <= i < |ps| && ps[i] == h && forall j :: 0 <= j < i ==> ps[j].priority < h.priority
  {
    var r := SortByPriority(ps);
    var h := r[0];
    SortHeadMax(ps);
    SortStable(ps, h.priority);
    assert r == [h] + r[1..];
    assert WithPriority(r, h.priority) != [] && WithPriority(r, h.priority)[0] == h;
    WithPriorityHead(ps, h.priority);
    var i :| 0 <= i < |ps| && ps[i] == WithPriority(ps, h.priority)[0] && ps[i].priority == h.priority
      && forall j :: 0 <= j < i ==> ps[j].priority != h.priority;
    forall j | 0 <= j < i
      ensures ps[j].priority < h.priority
    {
      assert ps[j] in ps;
    }
  }

  /** The head of the sorted list is one of the presets, of the highest priority. */
  lemma SortHeadMax(ps: seq<BrushState>)
    requires ps != []
    ensures var h := SortByPriority(ps)[0];
      h in ps && forall q :: q in ps ==> q.priority <= h.priority
  {
    var r := SortByPriority(ps);
    var h := r[0];
    SortPermutes(ps);
    SortDescending(ps);
    assert h in multiset(r);
    forall q | q in ps
      ensures q.priority <= h.priority
    {
      assert q in multiset(r);
      var m :| 0 <= m < |r| && r[m] == q;
    }
  }

  /** `load_presets`: the kept presets of the slot, highest priority first. */
  method LoadPresets(d: Dict, slot: string, tileset: string, matches: (BrushState, string) -> bool)
    returns (shown: seq<BrushState>)
    requires OrderedKeys(d)
    ensures shown == SortByPriority(Selected(d, d.order, slot, tileset, matches, true))
    ensures forall p :: p in shown <==>
      p.slot == slot && (tileset == "" || matches(p, tileset)) && exists k :: k in d.order && d.entries[k] == p
    ensures Descending(shown)
  {
    var found := CollectPresets(d, slot, tileset, matches, true);
    shown := SortByPriority(found);
    SortFacts(found, 0);
    forall p
      ensures p in shown <==>
        p.slot == slot && (tileset == "" || matches(p, tileset)) && exists k :: k in d.order && d.entries[k] == p
    {
      SelectedMembers(d, d.order, slot, tileset, matches, true, p);
      assert p in shown <==> p in multiset(found);
    }
  }

  /** `find_matching_preset`: among the presets of the slot matching the
      tileset, the one of highest priority, the first in dict order on a
      tie; None when there is none. */
  method FindMatchingPreset(d: Dict, slot: string, tileset: string, matches: (BrushState, string) -> bool)
    returns (r: Option<BrushState>)
    requires OrderedKeys(d)
    ensures var m := Selected(d, d.order, slot, tileset, matches, false);
      (r.None? <==> m == [])
      && (r.Some? ==> r.value in m && forall q :: q in m ==> q.priority <= r.value.priority)
      && (r.Some? ==> exists i :: 0 <= i < |m| && m[i] == r.value && forall j :: 0 <= j < i ==> m[j].priority < r.value.priority)
    ensures r.None? <==> forall k :: k in d.order ==> !(d.entries[k].slot == slot && matches(d.entries[k], tileset))
    ensures r.Some? ==> r.value.slot == slot && matches(r.value, tileset) && exists k :: k in d.order && d.entries[k] == r.value
  {
    var matching := CollectPresets(d, slot, tileset, matches, false);
    if |matching| == 0 {
      r := None;
      forall k | k in d.order
        ensures !(d.entries[k].slot == slot && matches(d.entries[k], tileset))
      {
        SelectedMembers(d, d.order, slot, tileset, matches, false, d.entries[k]);
      }
    } else {
      r := Some(SortByPriority(matching)[0]);
      SortHead(matching);
      SelectedMembers(d, d.order, slot, tileset, matches, false, r.value);
      SelectedMembers(d, d.order, slot, tileset, matches, false, matching[0]);
    }
  }
}
