/** Settings storage and the document's dirty flags (dirty.py). The settings
    store is a map from keys to values; `os.path.normpath` and `float()` are
    parameters. */
module Dirty {
  import opened Common
  import opened PyStr

  // ----- groups -----

  /** Names kept at the root of the settings file. */
  const RootNames: seq<string> := ["MainWindowState", "MainWindowGeometry", "ToolbarActs", "AutoSaveFilePath", "AutoSaveFileData"]

  const ViewNames: seq<string> := ["ShowSprites", "ShowSpriteImages", "ShowLocations", "ShowComments",
                                   "ShowPaths", "ShowCollisions", "RealViewEnabled", "GridType"]
  const FreezeNames: seq<string> := ["FreezeObjects", "FreezeSprites", "FreezeEntrances",
                                     "FreezeLocations", "FreezePaths", "FreezeComments"]
  const PreferenceNames: seq<string> := ["Translation", "ZoneEntIndicators", "ZoneBoundIndicators",
                                         "ResetDataWhenHiding", "HideResetSpritedata", "EnablePadding",
                                         "PaddingLength", "PlaceObjectsAtFullSize", "InsertPathNode", "Theme"]
  const GamePathPrefixes: seq<string> := ["StageGamePath_", "TextureGamePath_", "LastLevel_", "PatchPath_"]

  /** `_get_group_for_setting`: None for root names, the listed group, 'GamePaths'
      for the per-game prefixes, 'Main' otherwise. */
  function GroupForSetting(name: string): (r: Option<string>)
    ensures r.None? <==> name in RootNames
    ensures name !in RootNames && name in ViewNames ==> r == Some("View")
    ensures name !in RootNames && name !in ViewNames && name in FreezeNames ==> r == Some("Freeze")
    ensures name !in RootNames && name !in ViewNames && name !in FreezeNames && name in PreferenceNames
            ==> r == Some("Preferences")
    ensures name !in RootNames + ViewNames + FreezeNames + PreferenceNames ==>
              r == Some(if exists p :: p in GamePathPrefixes && StartsWith(name, p) then "GamePaths" else "Main")
  {
    if name in RootNames then None
    else if name in ViewNames then Some("View")
    else if name in FreezeNames then Some("Freeze")
    else if name in PreferenceNames then Some("Preferences")
    else if exists p :: p in GamePathPrefixes && StartsWith(name, p) then Some("GamePaths")
    else Some("Main")
  }

  /** The key a setting is stored under: `group/name`, or `name` at the root. */
  function StoreKey(name: string): string {
    match GroupForSetting(name)
    case None => name
    case Some(g) => g + "/" + name
  }

  // ----- values -----

  /** A value held by the settings store; dictionaries and byte arrays carry the
      text `str()` gives for them. */
  datatype Value = VNone | VStr(s: string) | VBool(b: bool) | VInt(i: int) | VDict(repr: string) | VBytes(repr: string)

  /** Decimal text of a natural number. */
  function NatToString(n: nat): (r: string)
    ensures |r| > 0 && forall i :: 0 <= i < |r| ==> '0' <= r[i] <= '9'
  {
    if n < 10 then [('0' as int + n) as char] else NatToString(n / 10) + [('0' as int + n % 10) as char]
  }

  /** `str(n)` for an integer. */
  function IntToString(n: int): string {
    if n < 0 then "-" + NatToString(-n) else NatToString(n)
  }

  predicate AllDigits(s: string) {
    s != [] && forall i :: 0 <= i < |s| ==> '0' <= s[i] <= '9'
  }

  /** The value of a run of decimal digits. */
  function DigitsValue(s: string): nat
    requires forall i :: 0 <= i < |s| ==> '0' <= s[i] <= '9'
  {
    if s == [] then 0 else DigitsValue(s[..|s| - 1]) * 10 + (s[|s| - 1] as int - '0' as int)
  }

  /** An optional sign followed by ASCII digits. */
  function ParseSigned(t: string): (r: Option<int>)
    ensures r.Some? ==> t != [] && '.' !in t
  {
    if t != [] && (t[0] == '-' || t[0] == '+') && AllDigits(t[1..]) then
      var v: int := DigitsValue(t[1..]);
      Some(if t[0] == '-' then -v else v)
    else if AllDigits(t) then Some(DigitsValue(t))
    else None
  }

  /** `int(s)` for a string: surrounding whitespace, an optional sign, then
      ASCII digits (other Unicode digits and underscores are not modelled);
      None where Python raises ValueError. */
  function ParseInt(s: string): Option<int> {
    ParseSigned(Strip(s))
  }

  lemma {:induction false} DigitsOfNat(n: nat)
    ensures AllDigits(NatToString(n)) && DigitsValue(NatToString(n)) == n
    decreases n
  {
    if n >= 10 {
      DigitsOfNat(n / 10);
      var s := NatToString(n);
      assert s[..|s| - 1] == NatToString(n / 10);
    }
  }

  /** `str(n)` starts and ends with a digit or '-', never with whitespace. */
  lemma IntStringShape(n: int)
    ensures var t := IntToString(n);
      t != [] && '.' !in t && !IsSpace(t[0]) && !IsSpace(t[|t| - 1])
      && (t[0] == '-' || '0' <= t[0] <= '9')
  {
    var t := IntToString(n);
    var d := NatToString(if n < 0 then -n else n);
    assert t[|t| - 1] == d[|d| - 1];
    assert forall i :: 0 <= i < |t| ==> t[i] == '-' || '0' <= t[i] <= '9';
  }

  /** `int(str(n)) == n`. */
  lemma IntStringRoundTrip(n: int)
    ensures ParseInt(IntToString(n)) == Some(n)
  {
    var t := IntToString(n);
    IntStringShape(n);
    StripKeeps(t);
    if n < 0 {
      DigitsOfNat(-n);
      assert t[1..] == NatToString(-n);
    } else {
      DigitsOfNat(n);
    }
  }

  /** `str(value)`. */
  function ToStr(v: Value): string {
    match v
    case VNone => "None"
    case VStr(s) => s
    case VBool(b) => if b then "True" else "False"
    case VInt(i) => IntToString(i)
    case VDict(repr) => repr
    case VBytes(repr) => repr
  }

  /** Stored values `setting` reads as "no value". */
  predicate IsNoneLike(value: Value) {
    value.VNone? || value == VStr("None") || value == VStr("@Invalid()")
  }

  /** A bool default: membership in ('true', 'True', '1', 1, True). */
  function ToBool(value: Value): (r: bool)
    ensures value.VBool? ==> r == value.b
    ensures value.VStr? ==> (r <==> value.s in ["true", "True", "1"])
    ensures value.VInt? ==> (r <==> value.i == 1)
    ensures value.VDict? || value.VBytes? || value.VNone? ==> !r
  {
    match value
    case VBool(b) => b
    case VStr(s) => s in ["true", "True", "1"]
    case VInt(i) => i == 1
    case _ => false
  }

  /** An int default: `int(value)`, the default where that raises. */
  function ToInt(value: Value, default: Value): Value {
    match value
    case VInt(_) => value
    case VBool(b) => VInt(if b then 1 else 0)
    case VStr(s) => (match ParseInt(s) case Some(n) => VInt(n) case None => default)
    case _ => default
  }

  /** No default: 'true'/'false' in any case, then int for dot-free text, then
      float; the text itself where the conversion raises. */
  function Guess(value: Value, toFloat: string -> Option<Value>): Value {
    match value
    case VStr(s) =>
      if Lower(s) == "true" || Lower(s) == "false" then VBool(Lower(s) == "true")
      else if '.' !in s then (match ParseInt(s) case Some(n) => VInt(n) case None => value)
      else (match toFloat(s) case Some(f) => f case None => value)
    case _ => value
  }

  /** The conversion `setting` applies to a stored value. `toFloat` stands for
      Python's `float()` on text holding a '.', None where it raises. */
  function Convert(value: Value, default: Value, toFloat: string -> Option<Value>): (r: Value)
    ensures IsNoneLike(value) ==> r == VNone
    ensures !IsNoneLike(value) && default.VBool? ==> r == VBool(ToBool(value))
    ensures !IsNoneLike(value) && default.VStr? ==> r == VStr(ToStr(value))
    ensures !IsNoneLike(value) && default.VDict? ==> r == (if value.VDict? then value else default)
    ensures !IsNoneLike(value) && default.VBytes? ==> r == (if value.VBytes? then value else default)
  {
    if IsNoneLike(value) then VNone
    else
      match default
      case VBool(_) => VBool(ToBool(value))
      case VInt(_) => ToInt(value, default)
      case VStr(_) => VStr(ToStr(value))
      case VDict(_) => if value.VDict? then value else default
      case VBytes(_) => if value.VBytes? then value else default
      case VNone => Guess(value, toFloat)
  }

  /** With no default, 'true' and 'false' in any letter case become booleans:
      true exactly for the spellings of 'true'. */
  lemma NoDefaultBooleans(s: string, toFloat: string -> Option<Value>)
    requires Lower(s) == "true" || Lower(s) == "false"
    ensures Convert(VStr(s), VNone, toFloat) == VBool(Lower(s) == "true")
  {
    assert Lower("None") == "none";
    assert Lower("@Invalid()") == "@invalid()";
  }

  /** Two spellings of the boolean words, read with no default. */
  lemma NoDefaultBooleanSpellings(toFloat: string -> Option<Value>)
    ensures Convert(VStr("TrUe"), VNone, toFloat) == VBool(true)
    ensures Convert(VStr("FALSE"), VNone, toFloat) == VBool(false)
  {
    assert Lower("TrUe") == "true";
    assert Lower("FALSE") == "false";
    NoDefaultBooleans("TrUe", toFloat);
    NoDefaultBooleans("FALSE", toFloat);
  }

  /** With no default, the text of an integer is read back as that integer. */
  lemma NoDefaultInt(n: int, toFloat: string -> Option<Value>)
    ensures Convert(VStr(IntToString(n)), VNone, toFloat) == VInt(n)
  {
    IntStringRoundTrip(n);
    IntStringShape(n);
    var t := IntToString(n);
    NumberWord(t);
    assert Guess(VStr(t), toFloat) == VInt(n);
  }

  /** Text starting with a sign or a digit is neither a None-like word nor
      a boolean word. */
  lemma NumberWord(t: string)
    requires t != [] && (t[0] == '-' || '0' <= t[0] <= '9')
    ensures !IsNoneLike(VStr(t)) && Lower(t) != "true" && Lower(t) != "false"
  {
    assert t[0] != 'N' && t[0] != '@';
    assert Lower(t)[0] == LowerChar(t[0]);
  }

  /** An int stored and read back with an int default is the same int, also
      when it was stored as its text. */
  lemma IntRoundTrips(n: int, d: int, toFloat: string -> Option<Value>)
    ensures Convert(VInt(n), VInt(d), toFloat) == VInt(n)
    ensures Convert(VStr(IntToString(n)), VInt(d), toFloat) == VInt(n)
  {
    IntStringRoundTrip(n);
    IntStringShape(n);
    NumberWord(IntToString(n));
  }

  /** `setting(name, default)` over a store: the grouped key first, then the
      bare name (for grouped settings), else the default. */
  function ReadSetting(store: map<string, Value>, name: string, default: Value,
                       toFloat: string -> Option<Value>): Value
  {
    match GroupForSetting(name)
    case None => if name in store then Convert(store[name], default, toFloat) else default
    case Some(g) =>
      var key := g + "/" + name;
      if key in store then Convert(store[key], default, toFloat)
      else if name in store then Convert(store[name], default, toFloat)
      else default
  }

  // ----- paths -----

  /** `_normalize_path_for_settings` after `os.path.normpath`: a drive path
      becomes drive + '/' + path[3:] (or drive + '/'), anything else is kept. */
  function NormalizeNormedAsWritten(p: string): (r: string)
    ensures |p| >= 2 && p[1] == ':' && |p| > 3 ==> r == p[..2] + "/" + p[3..]
    ensures |p| >= 2 && p[1] == ':' && |p| <= 3 ==> r == p[..2] + "/"
    ensures !(|p| >= 2 && p[1] == ':') ==> r == p
  {
    if |p| >= 2 && p[1] == ':' then
      var drive := p[..2];
      var rest := if |p| > 3 then p[3..] else [];
      if rest != [] then drive + "/" + rest else drive + "/"
    else p
  }

  /** A drive-relative path such as `C:foo` loses the character after the colon. */
  lemma DriveRelativeLosesChar()
    ensures NormalizeNormedAsWritten("C:foo") == "C:/oo"
  {
    assert "C:foo"[..2] == "C:" && "C:foo"[3..] == "oo";
  }

  predicate IsSep(c: char) {
    c == '\\' || c == '/'
  }

  /** The normalisation with the separator after the drive skipped only when it
      is there. */
  function NormalizeNormed(p: string): (r: string)
    ensures |p| >= 2 && p[1] == ':' ==> |r| >= 3 && r[..3] == p[..2] + "/"
    ensures |p| >= 2 && p[1] == ':' ==>
      (|p| > 2 && IsSep(p[2]) ==> r[3..] == p[3..]) && (|p| > 2 && !IsSep(p[2]) ==> r[3..] == p[2..])
    ensures !(|p| >= 2 && p[1] == ':') ==> r == p
  {
    if |p| >= 2 && p[1] == ':' then
      var rest := if |p| > 2 && IsSep(p[2]) then p[3..] else p[2..];
      p[..2] + "/" + rest
    else p
  }

  /** The corrected form keeps every character of the path except one separator
      after the drive, and agrees with the code as written whenever that
      separator is present. */
  lemma NormalizeKeepsCharacters(p: string)
    requires |p| >= 2 && p[1] == ':'
    ensures |p| > 2 && IsSep(p[2]) ==> NormalizeNormed(p) == NormalizeNormedAsWritten(p)
    ensures p == NormalizeNormed(p)[..2] + (if |p| > 2 && IsSep(p[2]) then [p[2]] else []) + NormalizeNormed(p)[3..]
  {
    var r := NormalizeNormed(p);
    if |p| > 2 && IsSep(p[2]) {
      assert p == p[..2] + [p[2]] + p[3..];
    } else {
      assert p == p[..2] + p[2..];
    }
  }

  /** `_normalize_path_for_settings`, as written: non-strings and empty text
      are unchanged; other text is normalised and then has its drive prefix
      rewritten by the rule as written, so a drive-relative path loses the
      character after the colon (see `DriveRelativeLosesChar`). */
  function NormalizePathForSettings(path: Value, normpath: string -> string): (r: Value)
    ensures !path.VStr? || path.s == [] ==> r == path
    ensures path.VStr? && path.s != [] ==> r == VStr(NormalizeNormedAsWritten(normpath(path.s)))
    ensures path.VStr? && path.s != [] && !(|normpath(path.s)| >= 2 && normpath(path.s)[1] == ':') ==>
      r == VStr(normpath(path.s))
  {
    if path.VStr? && path.s != [] then VStr(NormalizeNormedAsWritten(normpath(path.s))) else path
  }

  /** The `setSetting` trigger: a string value with a separator, under a name
      mentioning 'Path' or 'Level'. */
  predicate NormalizeTrigger(name: string, value: Value) {
    value.VStr? && (Contains(name, "Path") || Contains(name, "Level"))
    && ('\\' in value.s || '/' in value.s)
  }

  /** The settings store (`QSettings`), as a map from keys to values. */
  class SettingsStore {
    var values: map<string, Value>

    constructor (initial: map<string, Value>)
      ensures values == initial
    {
      values := initial;
    }

    function Setting(name: string, default: Value, toFloat: string -> Option<Value>): Value
      reads this
    {
      ReadSetting(values, name, default, toFloat)
    }

    /** `setSetting`: normalise a path value if triggered, then store it under
        the setting's key. */
    method SetSetting(name: string, value: Value, normpath: string -> string)
      modifies this
      ensures values == old(values)[StoreKey(name) :=
                if NormalizeTrigger(name, value) then NormalizePathForSettings(value, normpath) else value]
    {
      var v := value;
      if NormalizeTrigger(name, value) {
        v := NormalizePathForSettings(value, normpath);
      }
      values := values[StoreKey(name) := v];
    }
  }

  /** A value written under a name is what `setting` reads back, converted. */
  lemma WriteThenRead(store: map<string, Value>, name: string, v: Value, default: Value,
                      toFloat: string -> Option<Value>)
    ensures ReadSetting(store[StoreKey(name) := v], name, default, toFloat) == Convert(v, default, toFloat)
  {
  }

  // ----- SetDirty -----

  /** The global flags `SetDirty` updates. */
  class DirtyFlags {
    var dirtyOverride: int
    var autoSaveDirty: bool
    var dirty: bool

    constructor ()
      ensures dirtyOverride == 0 && !autoSaveDirty && !dirty
    {
      dirtyOverride := 0;
      autoSaveDirty := false;
      dirty := false;
    }

    /** `SetDirty`: nothing while overridden; otherwise mark dirty, and mark
        for auto-save unless asked not to. */
    method SetDirty(noAutoSave: bool)
      modifies this
      ensures dirtyOverride == old(dirtyOverride)
      ensures old(dirtyOverride) > 0 ==> autoSaveDirty == old(autoSaveDirty) && dirty == old(dirty)
      ensures old(dirtyOverride) <= 0 ==> dirty && autoSaveDirty == (old(autoSaveDirty) || !noAutoSave)
    {
      if dirtyOverride > 0 {
        return;
      }
      if !noAutoSave {
        autoSaveDirty := true;
      }
      if dirty {
        return;
      }
      dirty := true;
    }
  }
}
