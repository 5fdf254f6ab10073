/**
 * The outside world of the script, replaced by inputs and outputs: what a
 * subprocess run returned, which tools were found, which files exist, and
 * the observable effects the script has (processes started, a browser page).
 */
module Environment {
  import opened Wrappers

  /** What `subprocess.run` gave back: a return code and captured stderr, or an exception. */
  datatype RunOutcome = Ran(code: int, stderr: string) | Raised

  /** An externally visible action, in the order the script performs them. */
  datatype Effect =
    | Run(argv: seq<string>)           // subprocess.run(argv)
    | LaunchInstaller(path: string)    // subprocess.Popen([path]) attempted; it may have raised
    | OpenBrowser(url: string)         // webbrowser.open(url)

  /** What `find_executable` returns for each of the three tools. */
  datatype Tools = Tools(psql: Option<string>, pgRestore: Option<string>, ogr2ogr: Option<string>)

  /**
   * The filesystem as the installer lookup sees it: the paths for which
   * `os.path.exists` holds, the list `glob.glob` returns for the
   * stackbuilder pattern (in its own order), and whether `Popen` raises.
   */
  datatype InstallerWorld = InstallerWorld(existing: set<string>, globbed: seq<string>, popenRaises: bool)
}
