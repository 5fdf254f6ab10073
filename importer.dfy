/**
 * The three importers (import.py:148-208), the dispatch on the detected
 * format and the script's main block (import.py:217-237).
 */
module Importer {
  import opened Wrappers
  import opened Config
  import opened Environment
  import opened TextFile
  import opened FileType
  import opened Installer
  import opened Extension

  datatype Tool = PgRestore | Psql | Ogr2ogr

  /**
   * How a failure of the import run is treated: pg_restore runs with
   * `check=False` inside a handler for every exception; psql runs with
   * `check=True` and a non-zero return code is reported with its value;
   * ogr2ogr's return code is ignored and nothing is caught.
   */
  datatype FailurePolicy = IgnoreAll | ReportReturnCode | IgnoreReturnCode

  /** What the dispatch does for one format: activate first or not, which tool, how its failure is treated. */
  datatype Route = Route(activateFirst: bool, tool: Tool, policy: FailurePolicy)

  /** The pg_restore options: verbose, clean first, tolerate missing objects, drop owners and ACLs. */
  const RestoreFlags: seq<string> := ["-v", "-c", "--if-exists", "--no-owner", "--no-acl"]

  /** The OGR connection string for the configured database. */
  const Dsn: string :=
    "PG:host=" + DbHost + " port=" + DbPort + " dbname=" + DbName + " user=" + DbUser + " password=" + DbPassword

  function PgRestoreArgv(tool: string, file: string): (argv: seq<string>)
    ensures |argv| == 15 && argv[0] == tool && argv[|argv| - 1] == file
    ensures argv[1..9] == ConnectionArgs && argv[9..14] == RestoreFlags
  {
    [tool] + ConnectionArgs + RestoreFlags + [file]
  }

  function Ogr2ogrArgv(tool: string, file: string): (argv: seq<string>)
    ensures |argv| == 8 && argv[0] == tool && argv[1..3] == ["-f", "PostgreSQL"]
    ensures argv[3] == Dsn && argv[4] == file
    ensures argv[5..] == ["-overwrite", "-nln", ImportTable]
  {
    [tool, "-f", "PostgreSQL", Dsn, file, "-overwrite", "-nln", ImportTable]
  }

  /** The command line of each tool for the input file. */
  function CommandArgv(tool: Tool, toolPath: string, file: string): (argv: seq<string>)
    ensures |argv| >= 8 && argv[0] == toolPath
    ensures tool == Ogr2ogr ==> argv[|argv| - 3..] == ["-overwrite", "-nln", ImportTable]
    ensures tool != Ogr2ogr ==> |argv| > 9 && argv[1..9] == ConnectionArgs && argv[|argv| - 1] == file
  {
    match tool
    case PgRestore => PgRestoreArgv(toolPath, file)
    case Psql => PsqlArgv(toolPath, "-f", file)
    case Ogr2ogr => Ogr2ogrArgv(toolPath, file)
  }

  /**
   * The dispatch of the main block: UNKNOWN falls back to the pg_restore
   * route; every route except GeoPackage's activates the extensions first,
   * and only psql's reports a failing return code.
   */
  function RouteFor(tag: FileType): (r: Route)
    ensures r.activateFirst <==> tag != GeoPackage
    ensures r.tool == Ogr2ogr <==> tag == GeoPackage
    ensures r.tool == Psql <==> tag == SqlScript
    ensures r.policy == ReportReturnCode <==> r.tool == Psql
    ensures r.policy == IgnoreReturnCode <==> r.tool == Ogr2ogr
  {
    match tag
    case PgDumpBinary => Route(true, PgRestore, IgnoreAll)
    case SqlScript => Route(true, Psql, ReportReturnCode)
    case GeoPackage => Route(false, Ogr2ogr, IgnoreReturnCode)
    case Unknown => Route(true, PgRestore, IgnoreAll)
  }

  /** An unidentified file is imported exactly like a binary dump. */
  lemma UnknownFallsBackToPgRestore()
    ensures RouteFor(Unknown) == RouteFor(PgDumpBinary)
  {
  }

  /** What `find_executable` returned for a tool. */
  function ToolPath(tools: Tools, tool: Tool): (path: Option<string>)
    ensures tool == Psql ==> path == tools.psql
    ensures tool == PgRestore ==> path == tools.pgRestore
    ensures tool == Ogr2ogr ==> path == tools.ogr2ogr
  {
    match tool
    case PgRestore => tools.pgRestore
    case Psql => tools.psql
    case Ogr2ogr => tools.ogr2ogr
  }

  /**
   * How the script ends: normally, normally after reporting a psql return
   * code, through `sys.exit(code)`, or through an uncaught exception.
   */
  datatype Termination = Completed | ReportedFailure(code: int) | Exited(code: int) | Crashed

  /** The process exit status; an uncaught exception exits with 1. */
  function ExitStatus(t: Termination): (status: int)
    ensures status == 0 <==> t.Completed? || t.ReportedFailure? || (t.Exited? && t.code == 0)
    ensures t.Exited? ==> status == t.code
    ensures t.Crashed? ==> status == 1
  {
    match t
    case Completed => 0
    case ReportedFailure(_) => 0
    case Exited(code) => code
    case Crashed => 1
  }

  /** The import run of one tool, when it was found. */
  function ToolRun(path: Option<string>, tool: Tool, file: string): (runs: seq<Effect>)
    ensures path.None? ==> runs == []
    ensures path.Some? ==> runs == [Run(CommandArgv(tool, path.value, file))]
  {
    if path.Some? then [Run(CommandArgv(tool, path.value, file))] else []
  }

  /** `subprocess.run(cmd, check=True)` inside a handler for CalledProcessError only. */
  function CheckedRun(o: RunOutcome): (t: Termination)
    ensures t == Completed <==> o.Ran? && o.code == 0
    ensures t.ReportedFailure? <==> o.Ran? && o.code != 0
    ensures t.ReportedFailure? ==> t.code == o.code
    ensures t == Crashed <==> o.Raised?
  {
    match o
    case Ran(code, _) => if code == 0 then Completed else ReportedFailure(code)
    case Raised => Crashed
  }

  /**
   * How an import run ends under each policy, given whether the tool was
   * found and what the run did: pg_restore's end is always normal; psql's
   * reports a failing code and crashes on an exception, and is skipped when
   * psql is missing; ogr2ogr crashes when it is missing or the run raises.
   */
  function Ending(policy: FailurePolicy, path: Option<string>, o: RunOutcome): (t: Termination)
    ensures policy == IgnoreAll ==> t == Completed
    ensures policy == ReportReturnCode && path.None? ==> t == Completed
    ensures policy == ReportReturnCode && path.Some? ==> t == CheckedRun(o)
    ensures policy == IgnoreReturnCode ==> (t == Crashed <==> path.None? || o.Raised?)
    ensures policy == IgnoreReturnCode ==> t == Crashed || t == Completed
  {
    match policy
    case IgnoreAll => Completed
    case ReportReturnCode => if path.Some? then CheckedRun(o) else Completed
    case IgnoreReturnCode => if path.None? || o.Raised? then Crashed else Completed
  }

  /**
   * What an importer that activates first does: when activation is fatal the
   * script exits with 1 right after the recovery step and the tool never
   * runs; otherwise the activation statements are followed by the import.
   */
  predicate ActivatedImport(
    psql: Option<string>, outs: seq<RunOutcome>, w: InstallerWorld, importRuns: seq<Effect>, ending: Termination,
    t: Termination, effects: seq<Effect>)
    requires |outs| == |ExtensionCommands|
  {
    if ActivationIsFatal(psql, outs) then
      && t == Exited(1)
      && effects == ActivationTrace(psql, outs) + [RecoveryEffect(Recover(outs[FirstFatal(outs)].stderr, w))]
    else
      t == ending && effects == ActivationTrace(psql, outs) + importRuns
  }

  /**
   * When activation is fatal the script exits with status 1 and every
   * command it ran was one of the CREATE EXTENSION statements: the import
   * tool never runs.
   */
  lemma {:induction false} FatalActivationSkipsImport(
    psql: Option<string>, outs: seq<RunOutcome>, w: InstallerWorld, importRuns: seq<Effect>, ending: Termination,
    t: Termination, effects: seq<Effect>)
    requires |outs| == |ExtensionCommands|
    requires ActivatedImport(psql, outs, w, importRuns, ending, t, effects)
    requires ActivationIsFatal(psql, outs)
    ensures ExitStatus(t) == 1
    ensures forall i :: 0 <= i < |effects| && effects[i].Run? ==>
      effects[i].argv == PsqlArgv(psql.value, "-c", ExtensionCommands[i])
  {
    var n := |ActivationTrace(psql, outs)|;
    forall i | 0 <= i < |effects| && effects[i].Run?
      ensures effects[i].argv == PsqlArgv(psql.value, "-c", ExtensionCommands[i])
    {
      assert i < n;
      assert effects[i] == effects[..n][i];
    }
  }

  /** A missing psql skips activation, and the importer still goes on to its own run. */
  lemma {:induction false} MissingPsqlStillImports(
    outs: seq<RunOutcome>, w: InstallerWorld, importRuns: seq<Effect>, ending: Termination, t: Termination,
    effects: seq<Effect>)
    requires |outs| == |ExtensionCommands|
    requires ActivatedImport(None, outs, w, importRuns, ending, t, effects)
    ensures t == ending && effects == importRuns
  {
    assert ActivationTrace(None, outs) == [];
  }

  /** The GeoPackage command can never be mistaken for an activation statement. */
  lemma OgrRunIsNoActivation(tool: string, file: string, psql: string, sql: string)
    ensures Run(Ogr2ogrArgv(tool, file)) != Run(PsqlArgv(psql, "-c", sql))
  {
  }

  /** `import_with_pg_restore`: activation, then pg_restore if found; its outcome never matters. */
  method ImportWithPgRestore(file: string, tools: Tools, outs: seq<RunOutcome>, w: InstallerWorld)
    returns (t: Termination, effects: seq<Effect>)
    requires |outs| == |ExtensionCommands|
    ensures ActivatedImport(tools.psql, outs, w, ToolRun(tools.pgRestore, PgRestore, file), Completed, t, effects)
  {
    var activation, activationEffects := ForceEnablePostgis(tools.psql, outs, w);
    if activation.Stopped? {
      return Exited(1), activationEffects;
    }
    effects := activationEffects;
    if tools.pgRestore.None? {
      return Completed, effects;
    }
    effects := effects + [Run(PgRestoreArgv(tools.pgRestore.value, file))];
    t := Completed;
  }

  /**
   * `import_with_psql`: activation, then the script run if psql was found;
   * a non-zero return code is reported, an exception from the run escapes.
   */
  method ImportWithPsql(file: string, tools: Tools, outs: seq<RunOutcome>, importOutcome: RunOutcome, w: InstallerWorld)
    returns (t: Termination, effects: seq<Effect>)
    requires |outs| == |ExtensionCommands|
    ensures ActivatedImport(tools.psql, outs, w, ToolRun(tools.psql, Psql, file),
      if tools.psql.Some? then CheckedRun(importOutcome) else Completed, t, effects)
  {
    var activation, activationEffects := ForceEnablePostgis(tools.psql, outs, w);
    if activation.Stopped? {
      return Exited(1), activationEffects;
    }
    effects := activationEffects;
    if tools.psql.None? {
      return Completed, effects;
    }
    effects := effects + [Run(PsqlArgv(tools.psql.value, "-f", file))];
    match importOutcome
    case Ran(code, _) =>
      t := if code == 0 then Completed else ReportedFailure(code);
    case Raised =>
      t := Crashed;
  }

  /**
   * `import_with_ogr2ogr`: no activation. A missing ogr2ogr puts None in the
   * command line and the run raises before starting anything; the return
   * code is ignored and nothing is caught.
   */
  method ImportWithOgr2ogr(file: string, tools: Tools, importOutcome: RunOutcome)
    returns (t: Termination, effects: seq<Effect>)
    ensures tools.ogr2ogr.None? ==> t == Crashed && effects == []
    ensures tools.ogr2ogr.Some? ==>
      effects == [Run(Ogr2ogrArgv(tools.ogr2ogr.value, file))] &&
      (t == Crashed <==> importOutcome.Raised?) && (t != Crashed ==> t == Completed)
  {
    if tools.ogr2ogr.None? {
      return Crashed, [];
    }
    effects := [Run(Ogr2ogrArgv(tools.ogr2ogr.value, file))];
    t := if importOutcome.Raised? then Crashed else Completed;
  }

  /** Everything the script's run depends on besides its own code. */
  datatype World = World(
    inputPath: Option<string>,       // resolve_input_file(INPUT_FILENAME)
    contents: Option<seq<byte>>,     // the file's bytes, None when it cannot be read
    tools: Tools,                    // find_executable for each tool
    activationOutcomes: seq<RunOutcome>,
    importOutcome: RunOutcome,
    installer: InstallerWorld)

  /**
   * The run the main block makes for a detected format, read off its route:
   * the found tool's command, ending as the route's policy says, preceded by
   * the activation when the route asks for it.
   */
  predicate FollowsRoute(tag: FileType, file: string, w: World, t: Termination, effects: seq<Effect>)
    requires |w.activationOutcomes| == |ExtensionCommands|
  {
    var route := RouteFor(tag);
    var path := ToolPath(w.tools, route.tool);
    var importRuns := ToolRun(path, route.tool, file);
    var ending := Ending(route.policy, path, w.importOutcome);
    if route.activateFirst then
      ActivatedImport(w.tools.psql, w.activationOutcomes, w.installer, importRuns, ending, t, effects)
    else
      t == ending && effects == importRuns
  }

  /**
   * A GeoPackage run issues no activation statement and starts no recovery:
   * its only effect, if any, is the ogr2ogr command.
   */
  lemma GeoPackageRunsOnlyOgr2ogr(file: string, w: World, t: Termination, effects: seq<Effect>)
    requires |w.activationOutcomes| == |ExtensionCommands|
    requires FollowsRoute(GeoPackage, file, w, t, effects)
    ensures |effects| <= 1
    ensures forall e :: e in effects ==> w.tools.ogr2ogr.Some? && e == Run(Ogr2ogrArgv(w.tools.ogr2ogr.value, file))
    ensures forall e, psql, sql :: e in effects ==> e != Run(PsqlArgv(psql, "-c", sql))
  {
    forall e, psql, sql | e in effects
      ensures e != Run(PsqlArgv(psql, "-c", sql))
    {
      OgrRunIsNoActivation(w.tools.ogr2ogr.value, file, psql, sql);
    }
  }

  /**
   * The main block: stop with 1 when the input file is missing, otherwise
   * detect its format and run the importer its route names.
   */
  method RunScript(w: World) returns (t: Termination, effects: seq<Effect>)
    requires |w.activationOutcomes| == |ExtensionCommands|
    ensures w.inputPath.None? ==> t == Exited(1) && effects == []
    ensures w.inputPath.Some? ==> FollowsRoute(Detect(w.contents), w.inputPath.value, w, t, effects)
  {
    if w.inputPath.None? {
      return Exited(1), [];
    }
    var file := w.inputPath.value;
    var fileType := Detect(w.contents);
    if fileType == PgDumpBinary {
      t, effects := ImportWithPgRestore(file, w.tools, w.activationOutcomes, w.installer);
    } else if fileType == SqlScript {
      t, effects := ImportWithPsql(file, w.tools, w.activationOutcomes, w.importOutcome, w.installer);
    } else if fileType == GeoPackage {
      t, effects := ImportWithOgr2ogr(file, w.tools, w.importOutcome);
    } else {
      t, effects := ImportWithPgRestore(file, w.tools, w.activationOutcomes, w.installer);
    }
  }
}
