/** GitHub URL helpers and download bookkeeping (download_manager.py). The
    regular expressions of the source are written as explicit '/'-splitting. */
module Download {
  import opened Common
  import opened PyStr

  const GitHubPrefix: string := "https://github.com/"

  /** The '/'-separated segments after the GitHub prefix, if the URL has it. */
  function Segments(url: string): Option<seq<string>> {
    if StartsWith(url, GitHubPrefix) then Some(Split(url[|GitHubPrefix|..], '/')) else None
  }

  /** `https://github\.com/([^/]+)/([^/]+)/KIND/([^/]+)`, matched at the start. */
  predicate KindMatch(segs: seq<string>, kind: string) {
    |segs| >= 4 && segs[0] != [] && segs[1] != [] && segs[2] == kind && segs[3] != []
  }

  /** `https://github\.com/([^/]+)/([^/]+)/?$`: `$` also matches before one
      final newline. */
  predicate BareMatch(segs: seq<string>) {
    (|segs| == 2 || (|segs| == 3 && (segs[2] == [] || segs[2] == "\n")))
    && segs[0] != [] && segs[1] != []
  }

  /** The result of `parse_github_url`: (owner, repo, branch), or all None. */
  datatype RepoRef = RepoRef(owner: string, repo: string, branch: string)

  /** `parse_github_url`. */
  function ParseGitHubUrl(url: string): (r: Option<RepoRef>)
    ensures r.Some? ==> StartsWith(url, GitHubPrefix)
    ensures r.Some? ==> r.value.owner != [] && r.value.repo != [] && r.value.branch != []
    ensures r.Some? ==> '/' !in r.value.owner && '/' !in r.value.repo && '/' !in r.value.branch
    ensures r.None? <==>
      (Segments(url).None? ||
       (!KindMatch(Segments(url).value, "tree") && !KindMatch(Segments(url).value, "blob") && !BareMatch(Segments(url).value)))
  {
    match Segments(url)
    case None => None
    case Some(segs) =>
      SplitPieces(url[|GitHubPrefix|..], '/');
      if KindMatch(segs, "tree") || KindMatch(segs, "blob") then Some(RepoRef(segs[0], segs[1], segs[3]))
      else if BareMatch(segs) then Some(RepoRef(segs[0], segs[1], "main"))
      else None
  }

  /** Text up to the first newline (`.` does not match a newline). */
  function UpToNewline(s: string): (r: string)
    ensures '\n' !in r && |r| <= |s| && r == s[..|r|]
    ensures |r| < |s| ==> s[|r|] == '\n'
  {
    if s == [] || s[0] == '\n' then [] else [s[0]] + UpToNewline(s[1..])
  }

  /** The group `(.+)` of `https://github\.com/[^/]+/[^/]+/tree/[^/]+/(.+)`:
      the text after the branch segment's slash, or '' when that is empty. */
  function Subfolder(url: string): (r: string)
    ensures r != [] ==> Segments(url).Some? && KindMatch(Segments(url).value, "tree")
  {
    match Segments(url)
    case None => []
    case Some(segs) =>
      if KindMatch(segs, "tree") && |segs| >= 5 then UpToNewline(Join(segs[4..], '/')) else []
  }

  /** The archive URL of a branch. */
  function ZipUrl(r: RepoRef): string {
    GitHubPrefix + r.owner + "/" + r.repo + "/archive/refs/heads/" + r.branch + ".zip"
  }

  /** `github_folder_to_zip_url`: (zip URL, subfolder), or None for a non-GitHub URL. */
  function GitHubFolderToZipUrl(url: string): (r: Option<(string, string)>)
    ensures r.Some? <==> ParseGitHubUrl(url).Some?
    ensures r.Some? ==> r.value.0 == ZipUrl(ParseGitHubUrl(url).value)
    ensures r.Some? && r.value.1 != [] ==> KindMatch(Segments(url).value, "tree")
  {
    match ParseGitHubUrl(url)
    case None => None
    case Some(ref) => Some((ZipUrl(ref), Subfolder(url)))
  }

  /** A tree URL names its owner, repository, branch and folder. */
  lemma TreeUrlParts(owner: string, repo: string, branch: string, folder: string)
    requires owner != [] && repo != [] && branch != [] && folder != []
    requires '/' !in owner && '/' !in repo && '/' !in branch && '\n' !in folder
    ensures var url := GitHubPrefix + owner + "/" + repo + "/tree/" + branch + "/" + folder;
      GitHubFolderToZipUrl(url) == Some((ZipUrl(RepoRef(owner, repo, branch)), folder))
  {
    var parts := [owner, repo, "tree", branch];
    var rest := Join(parts, '/') + "/" + folder;
    var url := GitHubPrefix + owner + "/" + repo + "/tree/" + branch + "/" + folder;
    assert url == GitHubPrefix + rest by {
      assert Join([branch], '/') == branch;
      assert Join(["tree", branch], '/') == "tree" + "/" + branch;
      assert Join([repo, "tree", branch], '/') == repo + "/" + ("tree" + "/" + branch);
      assert Join(parts, '/') == owner + "/" + (repo + "/" + ("tree" + "/" + branch));
    }
    assert StartsWith(url, GitHubPrefix);
    assert url[|GitHubPrefix|..] == rest;
    SplitJoinedSegments(parts, folder);
    var segs := Split(rest, '/');
    assert segs == parts + Split(folder, '/');
    assert Segments(url) == Some(segs);
    assert KindMatch(segs, "tree");
    assert ParseGitHubUrl(url) == Some(RepoRef(owner, repo, branch));
    assert segs[4..] == Split(folder, '/');
    JoinSplit(folder, '/');
    UpToNewlineAll(folder);
    assert Subfolder(url) == folder;
  }

  /** A blob URL names its owner, repository and branch; the file path after
      the branch is not a subfolder. */
  lemma BlobUrlParts(owner: string, repo: string, branch: string, file: string)
    requires owner != [] && repo != [] && branch != []
    requires '/' !in owner && '/' !in repo && '/' !in branch
    ensures var url := GitHubPrefix + owner + "/" + repo + "/blob/" + branch + "/" + file;
      GitHubFolderToZipUrl(url) == Some((ZipUrl(RepoRef(owner, repo, branch)), []))
  {
    var parts := [owner, repo, "blob", branch];
    var rest := Join(parts, '/') + "/" + file;
    var url := GitHubPrefix + owner + "/" + repo + "/blob/" + branch + "/" + file;
    assert url == GitHubPrefix + rest by {
      assert Join([branch], '/') == branch;
      assert Join(["blob", branch], '/') == "blob" + "/" + branch;
      assert Join([repo, "blob", branch], '/') == repo + "/" + ("blob" + "/" + branch);
      assert Join(parts, '/') == owner + "/" + (repo + "/" + ("blob" + "/" + branch));
    }
    assert StartsWith(url, GitHubPrefix);
    assert url[|GitHubPrefix|..] == rest;
    SplitJoinedSegments(parts, file);
    var segs := Split(rest, '/');
    assert segs == parts + Split(file, '/');
    assert Segments(url) == Some(segs);
    assert !KindMatch(segs, "tree") && KindMatch(segs, "blob");
    assert ParseGitHubUrl(url) == Some(RepoRef(owner, repo, branch));
    assert Subfolder(url) == [];
  }

  /** A bare repository URL, with or without a trailing slash, means branch
      'main' and no subfolder. */
  lemma BareUrlParts(owner: string, repo: string, trailing: bool)
    requires owner != [] && repo != [] && '/' !in owner && '/' !in repo
    ensures var url := GitHubPrefix + owner + "/" + repo + (if trailing then "/" else "");
      GitHubFolderToZipUrl(url) == Some((ZipUrl(RepoRef(owner, repo, "main")), []))
  {
    var tail := repo + (if trailing then "/" else "");
    var url := GitHubPrefix + owner + "/" + repo + (if trailing then "/" else "");
    assert url == GitHubPrefix + (owner + ("/" + tail));
    assert url[|GitHubPrefix|..] == owner + ("/" + tail);
    SplitSegment(owner, "/" + tail);
    assert ("/" + tail)[1..] == tail;
    if trailing {
      assert tail == repo + "/";
      SplitSegment(repo, "/");
      assert "/"[1..] == [];
      assert Split(tail, '/') == [repo, []];
    } else {
      assert tail == repo;
      SplitWhole(repo, '/');
    }
    var segs := [owner] + Split(tail, '/');
    assert |segs| == 2 || (|segs| == 3 && segs[2] == []);
    assert segs[0] == owner && segs[1] == repo;
    assert Segments(url) == Some(segs);
    assert !KindMatch(segs, "tree") && !KindMatch(segs, "blob") && BareMatch(segs);
    assert ParseGitHubUrl(url) == Some(RepoRef(owner, repo, "main"));
    assert Subfolder(url) == [];
  }

  /** Text without the separator splits into itself alone. */
  lemma {:induction false} SplitWhole(s: string, c: char)
    requires c !in s
    ensures Split(s, c) == [s]
    decreases |s|
  {
    if s != [] {
      assert c !in s[1..];
      SplitWhole(s[1..], c);
      assert [s[0]] + s[1..] == s;
    }
  }

  lemma {:induction false} UpToNewlineAll(s: string)
    requires '\n' !in s
    ensures UpToNewline(s) == s
    decreases |s|
  {
    if s != [] {
      assert '\n' !in s[1..];
      UpToNewlineAll(s[1..]);
    }
  }

  /** Splitting `join(parts) + "/" + tail` gives the parts, then the tail's pieces. */
  lemma {:induction false} SplitJoinedSegments(parts: seq<string>, tail: string)
    requires |parts| >= 1
    requires forall i :: 0 <= i < |parts| ==> '/' !in parts[i]
    ensures Split(Join(parts, '/') + "/" + tail, '/') == parts + Split(tail, '/')
    decreases |parts|
  {
    if |parts| == 1 {
      SplitSegment(parts[0], "/" + tail);
      assert ("/" + tail)[1..] == tail;
      assert Join(parts, '/') + "/" + tail == parts[0] + ("/" + tail);
      assert parts == [parts[0]];
    } else {
      var j := Join(parts[1..], '/');
      assert Join(parts, '/') + "/" + tail == parts[0] + ("/" + (j + "/" + tail));
      SplitSegment(parts[0], "/" + (j + "/" + tail));
      assert ("/" + (j + "/" + tail))[1..] == j + "/" + tail;
      SplitJoinedSegments(parts[1..], tail);
    }
  }

  /** A separator-free segment followed by a separator splits off as one piece. */
  lemma {:induction false} SplitSegment(seg: string, rest: string)
    requires '/' !in seg && |rest| > 0 && rest[0] == '/'
    ensures Split(seg + rest, '/') == [seg] + Split(rest[1..], '/')
    decreases |seg|
  {
    if seg == [] {
      assert seg + rest == rest;
    } else {
      assert '/' !in seg[1..];
      SplitSegment(seg[1..], rest);
      assert (seg + rest)[1..] == seg[1..] + rest;
      assert [seg[0]] + seg[1..] == seg;
    }
  }

  // ----- extract_folder_name_from_url -----

  /** `extract_folder_name_from_url`: the last '/'-separated piece after
      trailing slashes are removed; the `None` branch is never taken. */
  function ExtractFolderName(url: string): (r: Option<string>)
    ensures r.Some?
  {
    var parts := Split(RStripChar(url, '/'), '/');
    if |parts| > 0 then Some(parts[|parts| - 1]) else None
  }

  /** The folder name ends the slash-stripped URL, holds no slash, and is empty
      only when the URL is nothing but slashes. */
  lemma FolderNameIsLastSegment(url: string)
    ensures var name := ExtractFolderName(url).value;
            var stripped := RStripChar(url, '/');
      '/' !in name && EndsWith(stripped, name)
      && (|name| < |stripped| ==> stripped[|stripped| - |name| - 1] == '/')
      && (name == [] <==> forall i :: 0 <= i < |url| ==> url[i] == '/')
  {
    var stripped := RStripChar(url, '/');
    var parts := Split(stripped, '/');
    var name := parts[|parts| - 1];
    assert ExtractFolderName(url).value == name;
    SplitLast(stripped, '/');
    if stripped != [] {
      assert stripped[|stripped| - 1] != '/';
      assert name != [];
    }
    StrippedEmptyIffSlashes(url);
  }

  /** Stripping trailing slashes leaves nothing exactly when the text is all slashes. */
  lemma StrippedEmptyIffSlashes(url: string)
    ensures RStripChar(url, '/') == [] <==> forall i :: 0 <= i < |url| ==> url[i] == '/'
  {
    RStripCharDrops(url, '/');
  }

  /** The last piece of a split is the text after the last separator. */
  lemma {:induction false} SplitLast(s: string, c: char)
    ensures var parts := Split(s, c); var p := parts[|parts| - 1];
      c !in p && EndsWith(s, p) && (|p| < |s| ==> s[|s| - |p| - 1] == c)
    decreases |s|
  {
    if s != [] {
      var t := s[1..];
      var rest := Split(t, c);
      var q := rest[|rest| - 1];
      SplitLast(t, c);
      if s[0] == c || |rest| > 1 {
        SplitKeepsLast(s, c);
        assert s[|s| - |q|..] == t[|t| - |q|..];
        if |q| == |t| {
          if s[0] != c {
            // more than one piece needs a separator in `t`, yet `q` is all of `t`
            ManyPiecesHaveSeparator(t, c);
            assert false;
          }
        } else {
          assert s[|s| - |q| - 1] == t[|t| - |q| - 1];
        }
      } else {
        SplitOnePiece(s, c);
      }
    }
  }

  lemma SplitKeepsLast(s: string, c: char)
    requires s != [] && (s[0] == c || |Split(s[1..], c)| > 1)
    ensures Split(s, c)[|Split(s, c)| - 1] == Split(s[1..], c)[|Split(s[1..], c)| - 1]
  {
  }

  lemma SplitOnePiece(s: string, c: char)
    requires s != [] && s[0] != c && |Split(s[1..], c)| == 1
    ensures Split(s, c) == [s]
  {
    JoinSplit(s[1..], c);
    assert [s[0]] + s[1..] == s;
  }

  lemma ManyPiecesHaveSeparator(s: string, c: char)
    requires |Split(s, c)| > 1
    ensures c in s
  {
    var parts := Split(s, c);
    JoinSplit(s, c);
    assert Join(parts, c) == parts[0] + [c] + Join(parts[1..], c);
    assert s[|parts[0]|] == c;
  }

  // ----- DownloadManager -----

  /** Tracks running downloads (by URL) and extractions (by archive path). */
  class DownloadManager {
    var activeDownloads: set<string>
    var activeExtractions: set<string>

    constructor ()
      ensures activeDownloads == {} && activeExtractions == {}
    {
      activeDownloads := {};
      activeExtractions := {};
    }

    /** `is_busy`. */
    function IsBusy(): (b: bool)
      reads this
      ensures b <==> activeDownloads != {} || activeExtractions != {}
    {
      |activeDownloads| > 0 || |activeExtractions| > 0
    }

    /** `download_file`: the URL is tracked until its cleanup runs. */
    method DownloadFile(url: string)
      modifies this
      ensures activeDownloads == old(activeDownloads) + {url}
      ensures activeExtractions == old(activeExtractions)
      ensures IsBusy()
    {
      activeDownloads := activeDownloads + {url};
    }

    /** The cleanup run when a download's thread finishes. */
    method DownloadFinished(url: string)
      modifies this
      ensures activeDownloads == old(activeDownloads) - {url}
      ensures activeExtractions == old(activeExtractions)
    {
      if url in activeDownloads {
        activeDownloads := activeDownloads - {url};
      }
    }

    /** `extract_zip`. */
    method ExtractZip(zipPath: string)
      modifies this
      ensures activeExtractions == old(activeExtractions) + {zipPath}
      ensures activeDownloads == old(activeDownloads)
      ensures IsBusy()
    {
      activeExtractions := activeExtractions + {zipPath};
    }

    /** The cleanup run when an extraction's thread finishes. */
    method ExtractFinished(zipPath: string)
      modifies this
      ensures activeExtractions == old(activeExtractions) - {zipPath}
      ensures activeDownloads == old(activeDownloads)
    {
      if zipPath in activeExtractions {
        activeExtractions := activeExtractions - {zipPath};
      }
    }
  }
}
