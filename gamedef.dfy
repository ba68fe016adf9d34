/** Game definitions and their inheritance chain (gamedef.py). A definition
    that is a patch may name a base definition; file lookups, texture paths and
    plugins fall back along that chain. Settings are read through a lookup
    function and written through the settings store. */
module GameDef {
  import opened Common
  import opened PyStr
  import opened Dirty

  /** A data file or folder: its path (None when the definition has none) and
      whether it patches the base's. */
  datatype FileEntry = FileEntry(path: Option<string>, patch: bool)

  /** A plugin's value: its parameters, or `True` when it has none. */
  datatype PluginValue = Enabled | Params(params: map<string, string>)

  datatype Definition = Definition(
    custom: bool,
    name: string,
    files: map<string, FileEntry>,
    folders: map<string, FileEntry>,
    plugins: map<string, PluginValue>,
    base: Option<Definition>)

  /** A file of the stock data folder. */
  function DataPath(file: string): (p: string)
    ensures StartsWith(p, "reggiedata/")
  {
    "reggiedata/" + file
  }

  /** `InitAsEmpty`: the stock game, every data file in `reggiedata` and none
      of them a patch, no folders, no plugins and no base. */
  function EmptyDefinition(defaultName: string): (d: Definition)
    ensures !d.custom && d.base.None? && d.plugins == map[]
    ensures forall k :: k in d.files ==> d.files[k].path.Some? && !d.files[k].patch
                                         && StartsWith(d.files[k].path.value, "reggiedata/")
    ensures forall k :: k in d.folders ==> d.folders[k] == FileEntry(None, false)
  {
    Definition(false, defaultName,
      map["bga" := FileEntry(Some(DataPath("bga.txt")), false),
          "bgb" := FileEntry(Some(DataPath("bgb.txt")), false),
          "entrancetypes" := FileEntry(Some(DataPath("entrancetypes.txt")), false),
          "levelnames" := FileEntry(Some(DataPath("levelnames.xml")), false),
          "music" := FileEntry(Some(DataPath("music.txt")), false),
          "spritecategories" := FileEntry(Some(DataPath("spritecategories.xml")), false),
          "spritedata" := FileEntry(Some(DataPath("spritedata.xml")), false),
          "spritelistdata" := FileEntry(Some(DataPath("spritelistdata.txt")), false),
          "tilesetinfo" := FileEntry(Some(DataPath("tilesetinfo.xml")), false),
          "tilesets" := FileEntry(Some(DataPath("tilesets.xml")), false),
          "ts1_descriptions" := FileEntry(Some(DataPath("ts1_descriptions.txt")), false),
          "zonethemes" := FileEntry(Some(DataPath("zonethemes.txt")), false)],
      map["bga" := FileEntry(None, false), "bgb" := FileEntry(None, false),
          "sprites" := FileEntry(None, false), "external" := FileEntry(None, false)],
      map[], None)
  }

  /** In the empty definition every listed file resolves to its own path, and
      `recursiveFiles` lists just that path. */
  lemma EmptyDefinitionFiles(defaultName: string, k: string)
    requires k in EmptyDefinition(defaultName).files
    ensures var d := EmptyDefinition(defaultName);
      File(d, k) == d.files[k].path
      && RecursiveFiles(d, k, false) == Some(([d.files[k].path.value], false, [defaultName]))
  {
  }

  /** Constructor names that leave the definition empty: None, 'None', 0, '',
      True and False. Python's `in` compares with `==`, and 1 == True, so the
      integer 1 is one of them too. */
  predicate IsNoneName(name: Value) {
    name.VNone? || name == VStr("None") || name == VStr("") || name.VBool? || name == VInt(0) || name == VInt(1)
  }

  /** `ReggieGameDefinition(name)`: a None-like name gives the empty definition;
      any other is loaded by `initFromName` (which reads the patch's XML). */
  function NewDefinition(name: Value, defaultName: string, initFromName: Value -> Definition): (d: Definition)
    ensures IsNoneName(name) ==> d == EmptyDefinition(defaultName)
    ensures !IsNoneName(name) ==> d == initFromName(name)
  {
    if IsNoneName(name) then EmptyDefinition(defaultName) else initFromName(name)
  }

  /** The entry table `recursiveFiles` looks in. */
  function Entries(d: Definition, isFolder: bool): map<string, FileEntry> {
    if isFolder then d.folders else d.files
  }

  /** The definitions `recursiveFiles` visits for a name: this one, then the
      base as long as the entry is a patch; None where an entry is missing
      (Python raises KeyError). */
  function Visited(d: Definition, name: string, isFolder: bool): (r: Option<seq<Definition>>)
    ensures r.Some? ==> |r.value| >= 1 && r.value[0] == d
    ensures r.Some? ==> forall i :: 0 <= i < |r.value| ==> name in Entries(r.value[i], isFolder)
    decreases d
  {
    if name !in Entries(d, isFolder) then None
    else if d.base.None? || !Entries(d, isFolder)[name].patch then Some([d])
    else match Visited(d.base.value, name, isFolder)
      case None => None
      case Some(rest) => Some([d] + rest)
  }

  /** The paths of a visit, base first, skipping definitions with no path. */
  function PathsOf(visit: seq<Definition>, name: string, isFolder: bool): seq<string>
    requires forall i :: 0 <= i < |visit| ==> name in Entries(visit[i], isFolder)
  {
    if visit == [] then []
    else
      var e := Entries(visit[0], isFolder)[name];
      PathsOf(visit[1..], name, isFolder) + (if e.path.Some? then [e.path.value] else [])
  }

  /** `recursiveFiles`: the successive paths along the chain (base first), whether
      this step came from a patch, and the names that supplied them. */
  function RecursiveFiles(d: Definition, name: string, isFolder: bool)
    : (r: Option<(seq<string>, bool, seq<string>)>)
    ensures r.Some? ==> |r.value.0| == |r.value.2|
    ensures r.Some? <==> Visited(d, name, isFolder).Some?
    ensures r.Some? && (d.base.None? || !Entries(d, isFolder)[name].patch) ==>
              !r.value.1 && r.value.0 == (match Entries(d, isFolder)[name].path
                                          case None => [] case Some(p) => [p])
    decreases d
  {
    if name !in Entries(d, isFolder) then None
    else
      var e := Entries(d, isFolder)[name];
      if d.base.None? || !e.patch then
        if e.path.None? then Some(([], false, [])) else Some(([e.path.value], false, [d.name]))
      else match RecursiveFiles(d.base.value, name, isFolder)
        case None => None
        case Some((paths, _, names)) =>
          if e.path.None? then Some((paths, true, names))
          else Some((paths + [e.path.value], true, names + [d.name]))
  }

  /** The list `recursiveFiles` returns is exactly the paths of the visited
      definitions, base first, and `was_patch` says whether a base was visited. */
  lemma {:induction false} RecursiveFilesArePaths(d: Definition, name: string, isFolder: bool)
    requires Visited(d, name, isFolder).Some?
    ensures var v := Visited(d, name, isFolder).value;
      RecursiveFiles(d, name, isFolder).value.0 == PathsOf(v, name, isFolder)
      && RecursiveFiles(d, name, isFolder).value.1 == (|v| > 1)
    decreases d
  {
    var v := Visited(d, name, isFolder).value;
    var e := Entries(d, isFolder)[name];
    if d.base.None? || !e.patch {
      assert v == [d];
      assert v[1..] == [];
    } else {
      RecursiveFilesArePaths(d.base.value, name, isFolder);
      var rest := Visited(d.base.value, name, isFolder).value;
      assert v == [d] + rest;
      assert v[1..] == rest;
    }
  }

  /** `file`: the definition's own path for the name if set, else the base's,
      ending at None; None for a name the definition does not list. */
  function File(d: Definition, name: string): (r: Option<string>)
    ensures name in d.files && d.files[name].path.Some? ==> r == d.files[name].path
    ensures name !in d.files ==> r.None?
    decreases d
  {
    if name !in d.files then None
    else if d.files[name].path.Some? then d.files[name].path
    else if d.base.None? then None
    else File(d.base.value, name)
  }

  /** Where both lookups succeed and the chain is made of patch entries,
      `file` returns the last path `recursiveFiles` lists. */
  lemma {:induction false} FileIsLastRecursiveFile(d: Definition, name: string)
    requires Visited(d, name, false).Some?
    requires RecursiveFiles(d, name, false).value.0 != []
    requires forall i :: 0 <= i < |Visited(d, name, false).value| ==>
               var e := Visited(d, name, false).value[i].files[name]; e.patch || e.path.Some?
    ensures File(d, name) == Some(Last(RecursiveFiles(d, name, false).value.0))
    decreases d
  {
    var v := Visited(d, name, false).value;
    var e := d.files[name];
    if e.path.None? {
      assert v[0] == d;
      assert d.base.Some? && e.patch;
      var rest := Visited(d.base.value, name, false).value;
      assert v == [d] + rest;
      forall i | 0 <= i < |rest|
        ensures var f := rest[i].files[name]; f.patch || f.path.Some?
      {
        assert rest[i] == v[i + 1];
      }
      FileIsLastRecursiveFile(d.base.value, name);
    }
  }

  function Last(s: seq<string>): string
    requires s != []
  {
    s[|s| - 1]
  }

  // ----- plugins -----

  /** One `<plugin>` element of plugins.xml: its name, its `enabled` attribute if
      present, and its `<param>` pairs in document order. */
  datatype PluginEntry = PluginEntry(name: string, enabledAttr: Option<string>, params: seq<(string, string)>)

  /** `enabled` defaults to 'false' and is compared case-insensitively with 'true'. */
  predicate IsEnabled(p: PluginEntry) {
    Lower(p.enabledAttr.GetOr("false")) == "true"
  }

  /** The params dict of an element: later pairs override earlier ones. */
  function ParamsOf(ps: seq<(string, string)>): (m: map<string, string>)
    ensures forall k :: k in m <==> exists i :: 0 <= i < |ps| && ps[i].0 == k
    ensures ps == [] ==> m == map[]
  {
    if ps == [] then map[]
    else ParamsOf(ps[..|ps| - 1])[ps[|ps| - 1].0 := ps[|ps| - 1].1]
  }

  /** The value an enabled element stores. */
  function ValueOf(p: PluginEntry): (v: PluginValue)
    ensures p.params == [] <==> v == Enabled
  {
    if p.params == [] then Enabled
    else
      assert p.params[0].0 in ParamsOf(p.params);
      Params(ParamsOf(p.params))
  }

  /** The effect of one element on the plugin table. */
  function ApplyPlugin(plugins: map<string, PluginValue>, p: PluginEntry): map<string, PluginValue> {
    if IsEnabled(p) then plugins[p.name := ValueOf(p)]
    else plugins - {p.name}
  }

  /** The plugin table after a sequence of elements, in order. */
  function ApplyPlugins(plugins: map<string, PluginValue>, ps: seq<PluginEntry>): map<string, PluginValue>
    decreases |ps|
  {
    if ps == [] then plugins else ApplyPlugins(ApplyPlugin(plugins, ps[0]), ps[1..])
  }

  /** The last element naming `name`, if any. */
  function LastNamed(ps: seq<PluginEntry>, name: string): (r: Option<PluginEntry>)
    ensures r.Some? ==> r.value in ps && r.value.name == name
    ensures r.None? <==> forall i :: 0 <= i < |ps| ==> ps[i].name != name
  {
    if ps == [] then None
    else if ps[|ps| - 1].name == name then Some(ps[|ps| - 1])
    else LastNamed(ps[..|ps| - 1], name)
  }

  /** Each plugin's final state is decided by the last element naming it: an
      enabled one stores its value, a disabled one removes the plugin; a plugin
      no element names keeps its inherited value. */
  lemma {:induction false} ApplyPluginsLastWins(plugins: map<string, PluginValue>, ps: seq<PluginEntry>, name: string)
    ensures var r := ApplyPlugins(plugins, ps);
      match LastNamed(ps, name)
      case None => (name in r <==> name in plugins) && (name in plugins ==> r[name] == plugins[name])
      case Some(p) => (name in r <==> IsEnabled(p)) && (IsEnabled(p) ==> r[name] == ValueOf(p))
    decreases |ps|
  {
    if ps != [] {
      var m := ApplyPlugin(plugins, ps[0]);
      ApplyPluginsLastWins(m, ps[1..], name);
      assert ps == [ps[0]] + ps[1..];
      LastNamedCons(ps[0], ps[1..], name);
    }
  }

  lemma {:induction false} LastNamedCons(p: PluginEntry, ps: seq<PluginEntry>, name: string)
    ensures LastNamed([p] + ps, name) == (if LastNamed(ps, name).Some? then LastNamed(ps, name)
                                          else if p.name == name then Some(p) else None)
    decreases |ps|
  {
    if ps != [] {
      var q := [p] + ps;
      assert q[..|q| - 1] == [p] + ps[..|ps| - 1];
      if ps[|ps| - 1].name != name {
        LastNamedCons(p, ps[..|ps| - 1], name);
      }
    } else {
      assert ([p] + ps)[..0] == [];
    }
  }

  /** `LoadPlugins`: start from a copy of the base's plugins (or none), then
      apply each element of plugins.xml in order. `xml` is None when the file
      is missing or does not parse (a default file is written then). */
  method LoadPlugins(d: Definition, xml: Option<seq<PluginEntry>>) returns (plugins: map<string, PluginValue>)
    ensures plugins == ApplyPlugins(if d.base.Some? then d.base.value.plugins else map[],
                                    if xml.Some? then xml.value else [])
  {
    plugins := if d.base.Some? then d.base.value.plugins else map[];
    var ps := if xml.Some? then xml.value else [];
    var i := 0;
    while i < |ps|
      invariant 0 <= i <= |ps|
      invariant ApplyPlugins(plugins, ps[i..]) ==
                ApplyPlugins(if d.base.Some? then d.base.value.plugins else map[], ps)
    {
      assert ps[i..] == [ps[i]] + ps[i + 1..];
      plugins := ApplyElement(plugins, ps[i]);
      i := i + 1;
    }
  }

  /** One element of plugins.xml: an enabled one stores its params (or
      plain `Enabled` without any); a disabled one removes its name. */
  method ApplyElement(plugins: map<string, PluginValue>, p: PluginEntry) returns (plugins': map<string, PluginValue>)
    ensures plugins' == ApplyPlugin(plugins, p)
  {
    var enabled := Lower(if p.enabledAttr.Some? then p.enabledAttr.value else "false") == "true";
    if enabled {
      var params := ReadParams(p.params);
      plugins' := plugins[p.name := if params != map[] then Params(params) else Enabled];
    } else if p.name in plugins {
      plugins' := plugins - {p.name};
    } else {
      plugins' := plugins;
      assert plugins - {p.name} == plugins;
    }
  }

  /** The `<param>` loop of an enabled element. */
  method ReadParams(ps: seq<(string, string)>) returns (params: map<string, string>)
    ensures params == ParamsOf(ps)
    ensures params == map[] <==> ps == []
  {
    params := map[];
    var j := 0;
    while j < |ps|
      invariant 0 <= j <= |ps|
      invariant params == ParamsOf(ps[..j])
    {
      assert ps[..j + 1][..j] == ps[..j];
      params := params[ps[j].0 := ps[j].1];
      j := j + 1;
    }
    assert ps[..|ps|] == ps;
    if ps != [] {
      assert ps[0].0 in params;
    }
  }

  // ----- game paths -----

  /** `GetStageGamePath` / `GetTexturePath`: the global key for the stock game;
      for a custom definition its own key, falling back to the global one while
      that is unset. `lookup` stands for `setting(name)`. */
  function GamePath(d: Definition, globalKey: string, lookup: string -> Value): (r: Value)
    ensures !d.custom ==> r == lookup(globalKey)
    ensures d.custom && lookup(globalKey + "_" + d.name).VNone? ==> r == lookup(globalKey)
    ensures d.custom && !lookup(globalKey + "_" + d.name).VNone? ==>
              r == VStr(ToStr(lookup(globalKey + "_" + d.name)))
  {
    if !d.custom then lookup(globalKey)
    else
      var own := lookup(globalKey + "_" + d.name);
      if own.VNone? then lookup(globalKey) else VStr(ToStr(own))
  }

  /** `GetLastLevel`: like the game paths, but the per-definition value is
      returned as stored. */
  function LastLevel(d: Definition, lookup: string -> Value): (r: Value)
    ensures !d.custom || lookup("LastLevel_" + d.name).VNone? ==> r == lookup("LastLevel")
    ensures d.custom && !lookup("LastLevel_" + d.name).VNone? ==> r == lookup("LastLevel_" + d.name)
  {
    if !d.custom then lookup("LastLevel")
    else
      var own := lookup("LastLevel_" + d.name);
      if own.VNone? then lookup("LastLevel") else own
  }

  /** The custom definitions from the chain's root to `d` whose texture paths
      `GetTexturePaths` collects: the run of custom definitions ending at `d`. */
  function CustomRun(d: Definition): (r: seq<Definition>)
    ensures d.custom ==> r != [] && r[|r| - 1] == d
    ensures !d.custom ==> r == []
    ensures forall i :: 0 <= i < |r| ==> r[i].custom
    decreases d
  {
    if !d.custom then []
    else if d.base.None? then [d]
    else CustomRun(d.base.value) + [d]
  }

  /** `GetTexturePaths`: the global texture path, then the per-definition
      settings of the custom definitions from the root of the chain down. */
  function TexturePaths(d: Definition, lookup: string -> Value): (r: seq<Value>)
    ensures |r| >= 1 && r[0] == lookup("TextureGamePath")
    ensures d.custom ==> r[|r| - 1] == lookup("TextureGamePath_" + d.name)
    decreases d
  {
    if !d.custom then [lookup("TextureGamePath")]
    else
      var stg := lookup("TextureGamePath_" + d.name);
      (if d.base.Some? then TexturePaths(d.base.value, lookup) else [lookup("TextureGamePath")]) + [stg]
  }

  /** The texture paths are the global path followed by one setting per
      definition of the custom run. */
  lemma {:induction false} TexturePathsFollowChain(d: Definition, lookup: string -> Value)
    ensures var run := CustomRun(d); var r := TexturePaths(d, lookup);
      |r| == |run| + 1 && forall i :: 0 <= i < |run| ==> r[i + 1] == lookup("TextureGamePath_" + run[i].name)
    decreases d
  {
    if d.custom && d.base.Some? {
      TexturePathsFollowChain(d.base.value, lookup);
    }
  }

  /** The values `SetLastLevel` refuses to store. In Python 0 and 1 equal
      False and True. */
  predicate IsLastLevelSentinel(path: Value) {
    path.VNone? || path.VBool? || path == VInt(0) || path == VInt(1)
    || (path.VStr? && path.s in ["None", "none", "True", "true", "False", "false", ""])
  }

  /** The settings key a per-definition value is stored under. */
  function PathKey(d: Definition, globalKey: string): string {
    if d.custom then globalKey + "_" + d.name else globalKey
  }

  /** `SetStageGamePath` / `SetTextureGamePath`. */
  method SetGamePath(store: SettingsStore, d: Definition, globalKey: string, path: Value,
                     normpath: string -> string)
    modifies store
    ensures store.values == old(store.values)[StoreKey(PathKey(d, globalKey)) :=
              if NormalizeTrigger(PathKey(d, globalKey), path) then NormalizePathForSettings(path, normpath) else path]
  {
    store.SetSetting(PathKey(d, globalKey), path, normpath);
  }

  /** `SetLastLevel`: sentinels are ignored; otherwise the value is stored under
      the global or per-definition key. */
  method SetLastLevel(store: SettingsStore, d: Definition, path: Value, normpath: string -> string)
    modifies store
    ensures IsLastLevelSentinel(path) ==> store.values == old(store.values)
    ensures !IsLastLevelSentinel(path) ==>
              store.values == old(store.values)[StoreKey(PathKey(d, "LastLevel")) :=
                if NormalizeTrigger(PathKey(d, "LastLevel"), path) then NormalizePathForSettings(path, normpath) else path]
  {
    if IsLastLevelSentinel(path) {
      return;
    }
    store.SetSetting(PathKey(d, "LastLevel"), path, normpath);
  }

  /** A stored path is what the getter reads back through the store, for the
      stock game and for a custom definition alike (a custom definition reads
      it back as text). */
  lemma StoredGamePathReadBack(store: map<string, Value>, d: Definition, globalKey: string, path: Value,
                               toFloat: string -> Option<Value>)
    requires !Convert(path, VNone, toFloat).VNone?
    ensures var s := store[StoreKey(PathKey(d, globalKey)) := path];
      GamePath(d, globalKey, k => ReadSetting(s, k, VNone, toFloat))
      == (if d.custom then VStr(ToStr(Convert(path, VNone, toFloat))) else Convert(path, VNone, toFloat))
  {
    WriteThenRead(store, PathKey(d, globalKey), path, VNone, toFloat);
  }
}
