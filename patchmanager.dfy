/** The patch manager dialog's decisions (patch_manager_dialog.py): the status
    shown for a catalog patch, full-mod detection, which download buttons are
    enabled, the base game written into a new patch, and the de-duplicated
    list of scanned Riivolution mods. */
module PatchManager {
  import opened Common
  import opened PyStr
  import opened Catalog

  /** `_get_download_status`. `installedVersion` is what the catalog manager
      reports for an installed patch; None and the empty text are falsy. */
  function DownloadStatus(catalogStatus: map<string, string>, name: string, installed: bool,
                          catalogVersion: Option<string>, installedVersion: Option<string>): (r: string)
    ensures name in catalogStatus ==> r == catalogStatus[name]
    ensures name !in catalogStatus && !installed ==> r == "Download"
    ensures name !in catalogStatus && installed && (Falsy(catalogVersion) || Falsy(installedVersion)) ==>
              r == "Installed"
  {
    if name in catalogStatus then catalogStatus[name]
    else if !installed then "Download"
    else if Falsy(catalogVersion) || Falsy(installedVersion) then "Installed"
    else
      var c := CompareVersions(installedVersion.value, catalogVersion.value);
      if c < 0 then "Update Available" else if c == 0 then "Up to Date" else "Newer Installed"
  }

  predicate Falsy(s: Option<string>) {
    s.None? || s.value == []
  }

  /** For an installed patch with both versions known, the status follows the
      version comparison in all three directions, and swapping the two
      versions turns "Update Available" into "Newer Installed". */
  lemma StatusFollowsComparison(catalogStatus: map<string, string>, name: string, cv: string, iv: string)
    requires name !in catalogStatus && cv != [] && iv != []
    ensures var s := DownloadStatus(catalogStatus, name, true, Some(cv), Some(iv));
      (s == "Update Available" <==> CompareVersions(iv, cv) == -1)
      && (s == "Up to Date" <==> CompareVersions(iv, cv) == 0)
      && (s == "Newer Installed" <==> CompareVersions(iv, cv) == 1)
    ensures DownloadStatus(catalogStatus, name, true, Some(cv), Some(iv)) == "Update Available" <==>
            DownloadStatus(catalogStatus, name, true, Some(iv), Some(cv)) == "Newer Installed"
  {
    CompareAntisymmetric(iv, cv);
  }

  /** The same version installed and in the catalog is up to date. */
  lemma SameVersionUpToDate(catalogStatus: map<string, string>, name: string, v: string)
    requires name !in catalogStatus && v != []
    ensures DownloadStatus(catalogStatus, name, true, Some(v), Some(v)) == "Up to Date"
  {
    CompareReflexive(v);
  }

  /** A patch is a full mod when both paths are set and the normalised stage
      path starts with the normalised Dolphin Riivolution root. */
  predicate IsFullMod(dolphinPath: string, stagePath: Option<string>, normpath: string -> string) {
    dolphinPath != [] && !Falsy(stagePath) && StartsWith(normpath(stagePath.value), normpath(dolphinPath))
  }

  /** A patch is a full mod exactly when the Dolphin root is set, a stage path
      is set, and the normalised stage path is the normalised root followed by
      some further text; without either path it never is. */
  lemma FullModMeaning(dolphinPath: string, stagePath: Option<string>, normpath: string -> string)
    ensures IsFullMod(dolphinPath, stagePath, normpath) <==>
      dolphinPath != [] && stagePath.Some? && stagePath.value != []
      && exists rest :: normpath(stagePath.value) == normpath(dolphinPath) + rest
  {
    if dolphinPath != [] && stagePath.Some? && stagePath.value != [] {
      var s, p := normpath(stagePath.value), normpath(dolphinPath);
      if StartsWith(s, p) {
        assert s == p + s[|p|..];
      }
      if exists rest :: s == p + rest {
        var rest :| s == p + rest;
        assert s[..|p|] == p;
      }
    }
  }

  /** The "(Full)" button: the Dolphin folder exists, and the full mod is not
      already installed unless an update is available. */
  predicate FullButtonEnabled(hasDolphinDir: bool, fullModInstalled: bool, status: string) {
    hasDolphinDir && !(fullModInstalled && status != "Update Available")
  }

  /** The "(Stage/Texture)" button: only while no full mod is installed. */
  predicate PartsButtonEnabled(fullModInstalled: bool) {
    !fullModInstalled
  }

  /** Both download buttons are disabled exactly when a full mod is installed
      and the full download is also unavailable (no Dolphin folder, or nothing
      newer to fetch); with no full mod installed the parts button is always
      offered. */
  lemma ButtonsDisabledExactly(hasDolphinDir: bool, fullModInstalled: bool, status: string)
    ensures !FullButtonEnabled(hasDolphinDir, fullModInstalled, status) && !PartsButtonEnabled(fullModInstalled)
            <==> fullModInstalled && (!hasDolphinDir || status != "Update Available")
    ensures fullModInstalled && hasDolphinDir && status == "Update Available" ==>
            FullButtonEnabled(hasDolphinDir, fullModInstalled, status)
  {
  }

  const NewerName := "Newer Super Mario Bros. Wii"
  const BaseName := "New Super Mario Bros. Wii"

  /** The base game of `_create_basic_patch`: empty means Newer, 'newer' and
      'base' in any letter case name the two known games, anything else is
      kept verbatim. */
  function BaseGame(value: string): (r: string)
    ensures value == [] ==> r == NewerName
    ensures value != [] && Lower(value) == "newer" ==> r == NewerName
    ensures value != [] && Lower(value) == "base" ==> r == BaseName
    ensures Lower(value) != "newer" && Lower(value) != "base" && value != [] ==> r == value
  {
    if value == [] then NewerName
    else if Lower(value) == "newer" then NewerName
    else if Lower(value) == "base" then BaseName
    else value
  }

  /** Every spelling of 'newer' and 'base' resolves the same way. */
  lemma BaseGameCaseInsensitive(a: string, b: string)
    requires Lower(a) == Lower(b) && (Lower(a) == "newer" || Lower(a) == "base")
    ensures BaseGame(a) == BaseGame(b)
  {
  }

  /** A mod found by scanning a Riivolution folder. */
  datatype ScannedMod = ScannedMod(name: string, rootFolder: string, stagePath: string, texturePath: string)

  /** No two scanned mods share a (name, root folder) pair. */
  predicate NoDuplicateMods(mods: seq<ScannedMod>) {
    forall i, j :: 0 <= i < j < |mods| ==>
      (mods[i].name, mods[i].rootFolder) != (mods[j].name, mods[j].rootFolder)
  }

  class PatchManagerDialog {
    var catalogStatus: map<string, string>
    var scannedMods: seq<ScannedMod>

    constructor ()
      ensures catalogStatus == map[] && scannedMods == []
    {
      catalogStatus := map[];
      scannedMods := [];
    }

    /** The scan's duplicate check: a mod is added unless one with the same
        name and root folder is already listed. Returns whether it was added. */
    method AddScannedMod(mod: ScannedMod) returns (added: bool)
      modifies this
      ensures catalogStatus == old(catalogStatus)
      ensures added <==> forall k :: 0 <= k < |old(scannedMods)| ==>
                (old(scannedMods)[k].name, old(scannedMods)[k].rootFolder) != (mod.name, mod.rootFolder)
      ensures scannedMods == if added then old(scannedMods) + [mod] else old(scannedMods)
      ensures NoDuplicateMods(old(scannedMods)) ==> NoDuplicateMods(scannedMods)
    {
      var i := 0;
      while i < |scannedMods|
        invariant 0 <= i <= |scannedMods|
        invariant forall k :: 0 <= k < i ==>
                    (scannedMods[k].name, scannedMods[k].rootFolder) != (mod.name, mod.rootFolder)
      {
        if scannedMods[i].name == mod.name && scannedMods[i].rootFolder == mod.rootFolder {
          return false;
        }
        i := i + 1;
      }
      scannedMods := scannedMods + [mod];
      added := true;
    }
  }
}
