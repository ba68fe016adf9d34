/** Preset storage for smart brushes (quickpaint/core/presets.py): builtin
    and user presets, each cached after the first load, with user presets
    overriding builtin ones of the same name. The preset directories are
    arguments: a listing gives, in directory order, each JSON file's brush,
    or `None` when the file did not load. */
module Presets {
  import opened Common
  import opened Brush

  /** A Python dict from preset name to brush: its keys in insertion order
      and its entries. */
  datatype Dict = Dict(order: seq<string>, entries: map<string, BrushState>)

  /** The order lists each key once, and exactly the keys. */
  predicate OrderedKeys(d: Dict) {
    Distinct(d.order) && (set k | k in d.order) == d.entries.Keys
  }

  const Empty := Dict([], map[])

  /** `d.get(k)`. */
  function Get(d: Dict, k: string): (r: Option<BrushState>)
    ensures r.None? <==> k !in d.entries
    ensures r.Some? ==> r.value == d.entries[k]
  {
    if k in d.entries then Some(d.entries[k]) else None
  }

  /** `d[k] = v`: an existing key keeps its place and takes the new value; a
      new key goes at the end. */
  function Put(d: Dict, k: string, v: BrushState): (r: Dict)
    requires OrderedKeys(d)
    ensures OrderedKeys(r)
    ensures forall j :: Get(r, j) == if j == k then Some(v) else Get(d, j)
    ensures r.order == if k in d.entries then d.order else d.order + [k]
  {
    Dict(if k in d.entries then d.order else d.order + [k], d.entries[k := v])
  }

  /** `del d[k]`. */
  function Remove(d: Dict, k: string): (r: Dict)
    requires OrderedKeys(d) && k in d.entries
    ensures OrderedKeys(r)
    ensures forall j :: Get(r, j) == if j == k then None else Get(d, j)
  {
    RemoveDistinct(d.order, k);
    Dict(RemoveFirst(d.order, k), d.entries - {k})
  }

  /** `d.update(e)`: the entries of `e` assigned in `e`'s order. */
  function Merge(d: Dict, e: Dict, n: nat): (r: Dict)
    requires OrderedKeys(d) && OrderedKeys(e) && n <= |e.order|
    ensures OrderedKeys(r)
    ensures |d.order| <= |r.order| && r.order[..|d.order|] == d.order
    decreases n
  {
    if n == 0 then d
    else
      var k := e.order[n - 1];
      Put(Merge(d, e, n - 1), k, e.entries[k])
  }

  /** `d.update(e)` over all of `e`. */
  function Update(d: Dict, e: Dict): (r: Dict)
    requires OrderedKeys(d) && OrderedKeys(e)
    ensures OrderedKeys(r)
    ensures |d.order| <= |r.order| && r.order[..|d.order|] == d.order
  {
    Merge(d, e, |e.order|)
  }

  /** After the first `n` assignments of `d.update(e)`, a key assigned so far
      holds its value in `e`; every other key keeps its value in `d`. The
      keys of `d` keep their places, the new keys follow. */
  lemma {:induction false} MergeFacts(d: Dict, e: Dict, n: nat)
    requires OrderedKeys(d) && OrderedKeys(e) && n <= |e.order|
    ensures forall k :: Get(Merge(d, e, n), k) == if k in e.order[..n] then Get(e, k) else Get(d, k)
    decreases n
  {
    if n > 0 {
      MergeFacts(d, e, n - 1);
      assert e.order[..n] == e.order[..n - 1] + [e.order[n - 1]];
    }
  }

  /** Updating an empty dict copies the order of the other, and so its keys. */
  lemma MergeFromEmpty(e: Dict, n: nat)
    requires OrderedKeys(e) && n <= |e.order|
    ensures Merge(Empty, e, n).order == e.order[..n]
    ensures Merge(Empty, e, n).entries.Keys == set k | k in e.order[..n]
  {
    MergeOrderFromEmpty(e, n);
  }

  lemma {:induction false} MergeOrderFromEmpty(e: Dict, n: nat)
    requires OrderedKeys(e) && n <= |e.order|
    ensures Merge(Empty, e, n).order == e.order[..n]
    decreases n
  {
    if n > 0 {
      MergeOrderFromEmpty(e, n - 1);
      var m, k := Merge(Empty, e, n - 1), e.order[n - 1];
      assert e.order[..n] == e.order[..n - 1] + [k];
      assert k !in e.order[..n - 1];
      assert k !in m.entries;
    }
  }

  /** User presets override builtin presets of the same name: after
      `d.update(e)` a key of `e` holds its value in `e`, every other key its
      value in `d`, and the keys are those of both. */
  lemma UpdateOverrides(d: Dict, e: Dict)
    requires OrderedKeys(d) && OrderedKeys(e)
    ensures forall k :: Get(Update(d, e), k) == if k in e.entries then Get(e, k) else Get(d, k)
    ensures forall k :: k in Update(d, e).entries <==> k in d.entries || k in e.entries
  {
    MergeFacts(d, e, |e.order|);
    assert e.order[..|e.order|] == e.order;
  }

  /** A directory of preset files: missing, or its files' brushes in
      directory order (`None` for a file that failed to load). */
  datatype Listing = Missing | Files(files: seq<Option<BrushState>>)

  /** The presets read from a directory's files, each under its brush's name. */
  function LoadAll(files: seq<Option<BrushState>>): (d: Dict)
    ensures OrderedKeys(d)
  {
    if files == [] then Empty
    else
      var d := LoadAll(files[..|files| - 1]);
      match files[|files| - 1]
      case None => d
      case Some(b) => Put(d, b.name, b)
  }

  /** Every preset read from the files is stored under its own name, and a
      name is present iff some file holds a brush of that name. */
  lemma {:induction false} LoadAllNames(files: seq<Option<BrushState>>, k: string)
    ensures k in LoadAll(files).entries ==> LoadAll(files).entries[k].name == k
    ensures k in LoadAll(files).entries <==> exists i :: 0 <= i < |files| && files[i].Some? && files[i].value.name == k
  {
    if files != [] {
      var init, last := files[..|files| - 1], files[|files| - 1];
      LoadAllNames(init, k);
      var d, r := LoadAll(init), LoadAll(files);
      assert r == if last.None? then d else Put(d, last.value.name, last.value);
      assert Get(r, k) == if last.Some? && k == last.value.name then last else Get(d, k);
      if i :| 0 <= i < |files| && files[i].Some? && files[i].value.name == k {
        if i < |init| {
          assert init[i] == files[i];
        }
      }
      if i :| 0 <= i < |init| && init[i].Some? && init[i].value.name == k {
        assert files[i] == init[i];
      }
    }
  }

  /** The first preset, in dict order, whose patterns match the tileset
      (`matches_tileset` is a regular-expression match, taken as given). */
  function FirstMatch(d: Dict, keys: seq<string>, tileset: string, matches: (BrushState, string) -> bool)
    : (r: Option<BrushState>)
    requires forall k :: k in keys ==> k in d.entries
    ensures r.Some? ==> matches(r.value, tileset) && exists k :: k in keys && d.entries[k] == r.value
    ensures r.None? <==> forall k :: k in keys ==> !matches(d.entries[k], tileset)
    ensures r.Some? ==>
      exists i :: 0 <= i < |keys| && r.value == d.entries[keys[i]] && forall j :: 0 <= j < i ==> !matches(d.entries[keys[j]], tileset)
  {
    if keys == [] then None
    else if matches(d.entries[keys[0]], tileset) then Some(d.entries[keys[0]])
    else
      var r := FirstMatch(d, keys[1..], tileset, matches);
      assert r.Some? ==>
        exists i :: 0 <= i < |keys| && r.value == d.entries[keys[i]] && forall j :: 0 <= j < i ==> !matches(d.entries[keys[j]], tileset) by {
        if r.Some? {
          var rest := keys[1..];
          var i :| 0 <= i < |rest| && r.value == d.entries[rest[i]] && forall j :: 0 <= j < i ==> !matches(d.entries[rest[j]], tileset);
          assert rest[i] == keys[i + 1];
          forall j | 0 <= j < i + 1
            ensures !matches(d.entries[keys[j]], tileset)
          {
            if j > 0 {
              assert keys[j] == rest[j - 1];
            }
          }
        }
      }
      r
  }

  /** The state of a user preset file when it is to be deleted. */
  datatype FileStatus = Absent | Removable | Unremovable

  class PresetManager {
    var builtinCache: Dict
    var userCache: Dict

    predicate Valid()
      reads this
    {
      OrderedKeys(builtinCache) && OrderedKeys(userCache)
    }

    /** The merged view `get_all_presets` returns. */
    function All(): (all: Dict)
      reads this
      requires Valid()
      ensures OrderedKeys(all)
    {
      Update(Update(Empty, builtinCache), userCache)
    }

    constructor()
      ensures Valid() && builtinCache == Empty && userCache == Empty
    {
      builtinCache, userCache := Empty, Empty;
    }

    /** `load_builtin_presets`: a non-empty cache is returned as it is;
        otherwise the directory is read (nothing when it is missing) and,
        if it exists, the result becomes the cache. */
    method LoadBuiltinPresets(dir: Listing) returns (r: Dict)
      modifies this
      requires Valid()
      ensures Valid() && userCache == old(userCache) && r == builtinCache
      ensures old(builtinCache).order != [] ==> builtinCache == old(builtinCache)
      ensures old(builtinCache).order == [] && dir.Missing? ==> builtinCache == Empty
      ensures old(builtinCache).order == [] && dir.Files? ==> builtinCache == LoadAll(dir.files)
    {
      if builtinCache.order != [] {
        return builtinCache;
      }
      NoEntriesIsEmpty(builtinCache);
      if dir.Missing? {
        return Empty;
      }
      r := ReadDirectory(dir.files);
      builtinCache := r;
    }

    /** `load_user_presets`, the same rule on the user directory. */
    method LoadUserPresets(dir: Listing) returns (r: Dict)
      modifies this
      requires Valid()
      ensures Valid() && builtinCache == old(builtinCache) && r == userCache
      ensures old(userCache).order != [] ==> userCache == old(userCache)
      ensures old(userCache).order == [] && dir.Missing? ==> userCache == Empty
      ensures old(userCache).order == [] && dir.Files? ==> userCache == LoadAll(dir.files)
    {
      if userCache.order != [] {
        return userCache;
      }
      NoEntriesIsEmpty(userCache);
      if dir.Missing? {
        return Empty;
      }
      r := ReadDirectory(dir.files);
      userCache := r;
    }

    /** `get_all_presets`: a fresh dict updated with the builtin presets, then
        with the user presets (both loaded first). */
    method GetAllPresets(builtinDir: Listing, userDir: Listing) returns (all: Dict)
      modifies this
      requires Valid()
      ensures Valid() && all == All()
      ensures old(builtinCache).order != [] ==> builtinCache == old(builtinCache)
      ensures old(userCache).order != [] ==> userCache == old(userCache)
      ensures old(builtinCache).order == [] ==>
        builtinCache == if builtinDir.Files? then LoadAll(builtinDir.files) else Empty
      ensures old(userCache).order == [] ==>
        userCache == if userDir.Files? then LoadAll(userDir.files) else Empty
    {
      var builtin := LoadBuiltinPresets(builtinDir);
      var user := LoadUserPresets(userDir);
      all := Update(Update(Empty, builtin), user);
    }

    /** `get_preset`. */
    method GetPreset(name: string, builtinDir: Listing, userDir: Listing) returns (r: Option<BrushState>)
      modifies this
      requires Valid()
      ensures Valid() && r == Get(All(), name)
      ensures r == if name in userCache.entries then Get(userCache, name) else Get(builtinCache, name)
      ensures old(builtinCache).order != [] ==> builtinCache == old(builtinCache)
      ensures old(userCache).order != [] ==> userCache == old(userCache)
    {
      var all := GetAllPresets(builtinDir, userDir);
      AllOverrides();
      r := Get(all, name);
    }

    /** Names from both caches, a user preset shadowing a builtin one. */
    lemma AllOverrides()
      requires Valid()
      ensures forall k :: Get(All(), k) == if k in userCache.entries then Get(userCache, k) else Get(builtinCache, k)
      ensures forall k :: k in All().entries <==> k in builtinCache.entries || k in userCache.entries
    {
      UpdateOverrides(Empty, builtinCache);
      UpdateOverrides(Update(Empty, builtinCache), userCache);
    }

    /** `get_preset_for_tileset`: a preset named exactly like the tileset wins;
        otherwise the first preset, in dict order, whose patterns match
        (`matches` stands for `matches_tileset`). */
    method GetPresetForTileset(tileset: string, builtinDir: Listing, userDir: Listing,
                               matches: (BrushState, string) -> bool)
      returns (r: Option<BrushState>)
      modifies this
      requires Valid()
      ensures Valid()
      ensures tileset in All().entries ==> r == Get(All(), tileset)
      ensures tileset !in All().entries ==> r == FirstMatch(All(), All().order, tileset, matches)
      ensures old(builtinCache).order != [] ==> builtinCache == old(builtinCache)
      ensures old(userCache).order != [] ==> userCache == old(userCache)
    {
      var all := GetAllPresets(builtinDir, userDir);
      if tileset in all.entries {
        return Get(all, tileset);
      }
      assert forall k :: k in all.order ==> k in all.entries by {
        assert forall k :: k in all.order ==> k in (set j | j in all.order);
      }
      var i := 0;
      while i < |all.order|
        invariant 0 <= i <= |all.order|
        invariant FirstMatch(all, all.order, tileset, matches) == FirstMatch(all, all.order[i..], tileset, matches)
      {
        if matches(all.entries[all.order[i]], tileset) {
          return Some(all.entries[all.order[i]]);
        }
        assert all.order[i..][1..] == all.order[i + 1..];
        i := i + 1;
      }
      return None;
    }

    /** `save_preset`: when the file is written (`written`), the brush goes
        into the user cache under its name; a failed write changes nothing
        and answers false. */
    method SavePreset(brush: BrushState, written: bool) returns (ok: bool)
      modifies this
      requires Valid()
      ensures Valid() && ok == written && builtinCache == old(builtinCache)
      ensures written ==> userCache == Put(old(userCache), brush.name, brush)
      ensures !written ==> userCache == old(userCache)
    {
      if !written {
        return false;
      }
      userCache := Put(userCache, brush.name, brush);
      ok := true;
    }

    /** `delete_preset`: false with no change when the user file does not
        exist or cannot be removed; otherwise the name leaves the user cache
        if it is there. Builtin presets are never touched. */
    method DeletePreset(name: string, file: FileStatus) returns (ok: bool)
      modifies this
      requires Valid()
      ensures Valid() && builtinCache == old(builtinCache)
      ensures ok <==> file == Removable
      ensures !ok ==> userCache == old(userCache)
      ensures ok ==> forall k :: Get(userCache, k) == if k == name then None else Get(old(userCache), k)
    {
      if file != Removable {
        return false;
      }
      if name in userCache.entries {
        userCache := Remove(userCache, name);
      }
      ok := true;
    }

    /** `list_builtin_presets`. */
    method ListBuiltinPresets(dir: Listing) returns (names: seq<string>)
      modifies this
      requires Valid()
      ensures Valid() && names == builtinCache.order && userCache == old(userCache)
      ensures old(builtinCache).order != [] ==> builtinCache == old(builtinCache)
    {
      var presets := LoadBuiltinPresets(dir);
      names := presets.order;
    }

    /** `list_user_presets`. */
    method ListUserPresets(dir: Listing) returns (names: seq<string>)
      modifies this
      requires Valid()
      ensures Valid() && names == userCache.order && builtinCache == old(builtinCache)
      ensures old(userCache).order != [] ==> userCache == old(userCache)
    {
      var presets := LoadUserPresets(dir);
      names := presets.order;
    }

    /** `list_all_presets`: the names of `get_all_presets`, each once, builtin
        names first. */
    method ListAllPresets(builtinDir: Listing, userDir: Listing) returns (names: seq<string>)
      modifies this
      requires Valid()
      ensures Valid() && Distinct(names) && names == All().order
      ensures forall k :: k in names <==> k in builtinCache.entries || k in userCache.entries
      ensures |builtinCache.order| <= |names| && names[..|builtinCache.order|] == builtinCache.order
    {
      var all := GetAllPresets(builtinDir, userDir);
      AllOverrides();
      MergeFromEmpty(builtinCache, |builtinCache.order|);
      assert builtinCache.order[..|builtinCache.order|] == builtinCache.order;
      names := all.order;
      assert forall k :: k in names <==> k in all.entries by {
        assert forall k :: k in names <==> k in (set j | j in names);
      }
    }

    /** `clear_cache`: the next access reads the directories again. */
    method ClearCache()
      modifies this
      ensures Valid() && builtinCache == Empty && userCache == Empty
    {
      builtinCache, userCache := Empty, Empty;
    }
  }

  /** A well-formed dict with no keys is the empty dict. */
  lemma NoEntriesIsEmpty(d: Dict)
    requires OrderedKeys(d) && d.order == []
    ensures d == Empty
  {
    assert d.entries.Keys == {};
  }

  /** The loop that reads a directory's files. */
  method ReadDirectory(files: seq<Option<BrushState>>) returns (presets: Dict)
    ensures presets == LoadAll(files)
  {
    presets := Empty;
    for i := 0 to |files|
      invariant presets == LoadAll(files[..i])
    {
      assert files[..i + 1][..i] == files[..i];
      match files[i]
      case None =>
      case Some(b) => presets := Put(presets, b.name, b);
    }
    assert files[..|files|] == files;
  }
}
