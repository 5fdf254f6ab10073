/**
 * `launch_stackbuilder_from_error` (import.py:37-96): derive the PostgreSQL
 * installation directory from a missing-extension error message, and start
 * Application Stack Builder from there, from the last globbed match, or open
 * the PostGIS download page in a browser.
 */
module Installer {
  import opened Wrappers
  import opened Text
  import opened Environment

  /** Characters `strip("/\\ ")` removes from both ends of the base path. */
  const PathTrim: set<char> := {'/', '\\', ' '}

  const DownloadUrl: string := "https://www.postgis.net/documentation/getting_started/install_windows/"

  /** What the recovery step did: started the installer (or tried to), or opened the browser. */
  datatype Recovery = Installer(path: string, launched: bool) | Browser(url: string)

  /** Index of the first "C:/" in the message, else of the first "C:\", else -1. */
  function PathStart(s: string): (i: int)
    ensures i == -1 <==> !Contains(s, "C:/") && !Contains(s, "C:\\")
    ensures Contains(s, "C:/") ==>
      OccursAt(s, "C:/", i) && forall j :: 0 <= j < i ==> !OccursAt(s, "C:/", j)
    ensures !Contains(s, "C:/") && Contains(s, "C:\\") ==>
      OccursAt(s, "C:\\", i) && forall j :: 0 <= j < i ==> !OccursAt(s, "C:\\", j)
  {
    var i := Find(s, "C:/", 0);
    if i != -1 then i else Find(s, "C:\\", 0)
  }

  /**
   * The installation directory named in the message: present only when the
   * message mentions "PostgreSQL", has a path start, and has "share" at or
   * after it. What it holds is stated by BasePathSlice and BasePathEnds.
   */
  function BasePath(s: string): (base: Option<string>)
    ensures base.Some? <==>
      Contains(s, "PostgreSQL") && PathStart(s) >= 0 &&
      exists j :: PathStart(s) <= j && OccursAt(s, "share", j)
  {
    if !Contains(s, "PostgreSQL") then None
    else
      var st := PathStart(s);
      if st == -1 then None
      else
        var e := Find(s, "share", st);
        if e == -1 then None
        else Some(Strip(s[st..e], PathTrim))
  }

  /** Trimming the right end of a text that starts with a drive "C:" keeps the drive. */
  lemma {:induction false} TrimKeepsDrive(t: string)
    requires |t| >= 2 && t[0] == 'C' && t[1] == ':'
    ensures Strip(t, PathTrim) == TrimRight(t, PathTrim)
    ensures |TrimRight(t, PathTrim)| >= 2
  {
    StripKeepsStart(t, PathTrim);
  }

  /**
   * The base path is the text from the path start up to the first "share"
   * after it, with the separators and spaces before "share" trimmed off: it
   * is a prefix of that slice, and only separators and spaces were dropped.
   */
  lemma {:induction false} BasePathSlice(s: string, base: string, st: nat, e: int)
    requires BasePath(s) == Some(base)
    requires st == PathStart(s) && e == Find(s, "share", st)
    ensures st + |base| <= e <= |s|
    ensures forall k :: 0 <= k < |base| ==> base[k] == s[st + k]
    ensures forall k :: st + |base| <= k < e ==> s[k] in PathTrim
  {
    BasePathUnfold(s);
    DriveAt(s, st);
    ShareAfterDrive(s, st, e);
    TrimmedSlice(s, st, e);
  }

  /** The base path starts with the drive "C:" and ends in neither a separator nor a space. */
  lemma {:induction false} BasePathEnds(s: string, base: string)
    requires BasePath(s) == Some(base)
    ensures |base| >= 2 && base[..2] == "C:" && base[|base| - 1] !in PathTrim
  {
    BasePathUnfold(s);
    var st, e := PathStart(s), Find(s, "share", PathStart(s));
    DriveAt(s, st);
    ShareAfterDrive(s, st, e);
    TrimmedSlice(s, st, e);
  }

  /** The base path is the stripped slice between the path start and the first "share" after it. */
  lemma {:induction false} BasePathUnfold(s: string)
    requires BasePath(s).Some?
    ensures PathStart(s) >= 0 && PathStart(s) <= Find(s, "share", PathStart(s))
    ensures BasePath(s).value == Strip(s[PathStart(s)..Find(s, "share", PathStart(s))], PathTrim)
  {
  }

  /** Trimming the slice from a drive "C:" up to `e` gives a prefix of it ending in neither separator nor space. */
  lemma {:induction false} TrimmedSlice(s: string, st: int, e: int)
    requires 0 <= st && st + 3 <= e <= |s| && s[st] == 'C' && s[st + 1] == ':'
    ensures var base := Strip(s[st..e], PathTrim);
      && st + |base| <= e
      && (forall k :: 0 <= k < |base| ==> base[k] == s[st + k])
      && (forall k :: st + |base| <= k < e ==> s[k] in PathTrim)
      && |base| >= 2 && base[..2] == "C:" && base[|base| - 1] !in PathTrim
  {
    var slice := s[st..e];
    TrimKeepsDrive(slice);
    var base := TrimRight(slice, PathTrim);
    forall k | st + |base| <= k < e
      ensures s[k] in PathTrim
    {
      assert s[k] == slice[k - st];
    }
  }

  /** A path start is a drive "C:" followed by a separator. */
  lemma {:induction false} DriveAt(s: string, st: int)
    requires st == PathStart(s) && st >= 0
    ensures st + 3 <= |s| && s[st] == 'C' && s[st + 1] == ':' && s[st + 2] in PathTrim
  {
    if OccursAt(s, "C:/", st) {
      assert s[st..st + 3] == "C:/";
    } else {
      assert s[st..st + 3] == "C:\\";
    }
  }

  /** "share" cannot begin inside the drive and separator of the path start. */
  lemma {:induction false} ShareAfterDrive(s: string, st: int, e: int)
    requires 0 <= st && st + 3 <= |s| && s[st] == 'C' && s[st + 1] == ':' && s[st + 2] in PathTrim
    requires st <= e && OccursAt(s, "share", e)
    ensures st + 3 <= e
  {
    assert s[e..e + 5] == "share";
    assert s[e] == 's';
  }

  /**
   * `os.path.join(base, "bin", "stackbuilder.exe")` under Windows path rules:
   * a bare drive "C:" is joined without a separator.
   */
  function InstallerPath(base: string): (p: string)
    ensures StartsWith(p, base)
    ensures p[|base|..] == (if base == "C:" then "" else "\\") + "bin\\stackbuilder.exe"
  {
    if base == "C:" then base + "bin\\stackbuilder.exe" else base + "\\bin\\stackbuilder.exe"
  }

  /** The installer path derived from the message exists on disk. */
  predicate DerivedInstallerExists(stderr: string, w: InstallerWorld)
  {
    BasePath(stderr).Some? && InstallerPath(BasePath(stderr).value) in w.existing
  }

  /** The last path the glob returned exists on disk. */
  predicate GlobbedInstallerExists(w: InstallerWorld)
  {
    |w.globbed| > 0 && w.globbed[|w.globbed| - 1] in w.existing
  }

  /**
   * What the recovery step does for an error message: the installer derived
   * from the message is preferred; failing that the last globbed match;
   * when neither exists the download page is opened. An installer is always
   * an existing path, and it counts as launched exactly when `Popen` does
   * not raise.
   */
  function Recover(stderr: string, w: InstallerWorld): (r: Recovery)
    ensures r.Installer? ==> r.path in w.existing && (r.launched <==> !w.popenRaises)
    ensures DerivedInstallerExists(stderr, w) ==>
      r == Installer(InstallerPath(BasePath(stderr).value), !w.popenRaises)
    ensures !DerivedInstallerExists(stderr, w) && GlobbedInstallerExists(w) ==>
      r == Installer(w.globbed[|w.globbed| - 1], !w.popenRaises)
    ensures r.Browser? <==> !DerivedInstallerExists(stderr, w) && !GlobbedInstallerExists(w)
    ensures r.Browser? ==> r.url == DownloadUrl
  {
    if DerivedInstallerExists(stderr, w) then Installer(InstallerPath(BasePath(stderr).value), !w.popenRaises)
    else if GlobbedInstallerExists(w) then Installer(w.globbed[|w.globbed| - 1], !w.popenRaises)
    else Browser(DownloadUrl)
  }

  /**
   * The step as the script performs it: a candidate path is chosen first
   * (derived, else the last globbed one, whether or not it exists) and only
   * then checked for existence. It ends exactly as Recover says.
   */
  method LaunchStackbuilderFromError(stderr: string, w: InstallerWorld) returns (r: Recovery)
    ensures r == Recover(stderr, w)
  {
    var basePath := BasePath(stderr);
    var stackbuilderPath: Option<string> := None;
    if basePath.Some? {
      var candidate := InstallerPath(basePath.value);
      if candidate in w.existing {
        stackbuilderPath := Some(candidate);
      }
    }
    if stackbuilderPath.None? && |w.globbed| > 0 {
      stackbuilderPath := Some(w.globbed[|w.globbed| - 1]);
    }
    if stackbuilderPath.Some? && stackbuilderPath.value in w.existing {
      r := Installer(stackbuilderPath.value, !w.popenRaises);
    } else {
      r := Browser(DownloadUrl);
    }
  }

  /**
   * The effect the recovery step had on the outside world: the attempted
   * start of the installer it chose, or the page it opened.
   */
  function RecoveryEffect(r: Recovery): (e: Effect)
    ensures r.Installer? ==> e == LaunchInstaller(r.path)
    ensures r.Browser? ==> e == OpenBrowser(r.url)
  {
    match r
    case Installer(path, _) => LaunchInstaller(path)
    case Browser(url) => OpenBrowser(url)
  }
}
