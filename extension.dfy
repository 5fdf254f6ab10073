/**
 * `force_enable_postgis` (import.py:98-131): run the two CREATE EXTENSION
 * statements through psql, one after the other. A failure that says the
 * extension's control file is missing stops the whole script with status 1
 * after the installer recovery; any other failure is only a warning.
 */
module Extension {
  import opened Wrappers
  import opened Text
  import opened Config
  import opened Environment
  import opened Installer

  const ExtensionCommands: seq<string> := [
    "CREATE EXTENSION IF NOT EXISTS postgis CASCADE;",
    "CREATE EXTENSION IF NOT EXISTS postgis_topology;"
  ]

  /** The error text says the PostGIS files are not installed. */
  function IsMissingExtensionError(stderr: string): (b: bool)
    ensures b <==>
      (exists i :: OccursAt(stderr, "No such file or directory", i))
      && (exists i :: OccursAt(stderr, "postgis.control", i))
  {
    Contains(stderr, "No such file or directory") && Contains(stderr, "postgis.control")
  }

  /** A run that stops the script: non-zero return code and the missing-extension text. */
  function IsFatal(o: RunOutcome): (b: bool)
    ensures b <==>
      && o.Ran? && o.code != 0
      && (exists i :: OccursAt(o.stderr, "No such file or directory", i))
      && (exists i :: OccursAt(o.stderr, "postgis.control", i))
  {
    o.Ran? && o.code != 0 && IsMissingExtensionError(o.stderr)
  }

  /** Index of the first fatal outcome, or the number of outcomes when none is fatal. */
  function FirstFatal(outs: seq<RunOutcome>): (k: nat)
    ensures k <= |outs|
    ensures forall i :: 0 <= i < k ==> !IsFatal(outs[i])
    ensures k < |outs| ==> IsFatal(outs[k])
  {
    if outs == [] || IsFatal(outs[0]) then 0
    else
      var k := FirstFatal(outs[1..]);
      assert forall i :: 1 <= i <= k ==> outs[i] == outs[1..][i - 1];
      1 + k
  }

  /** The runs of the first `n` statements, in order. */
  function ActivationRuns(tool: string, n: nat): (runs: seq<Effect>)
    requires n <= |ExtensionCommands|
    ensures |runs| == n
    ensures forall i :: 0 <= i < n ==> runs[i] == Run(PsqlArgv(tool, "-c", ExtensionCommands[i]))
  {
    if n == 0 then [] else ActivationRuns(tool, n - 1) + [Run(PsqlArgv(tool, "-c", ExtensionCommands[n - 1]))]
  }

  /** Activation stops the script: psql was found and one of the statements failed fatally. */
  predicate ActivationIsFatal(psql: Option<string>, outs: seq<RunOutcome>)
  {
    psql.Some? && FirstFatal(outs) < |outs|
  }

  /**
   * The statements issued: none without psql; otherwise every statement up
   * to and including the first fatal one, or all of them.
   */
  function ActivationTrace(psql: Option<string>, outs: seq<RunOutcome>): (runs: seq<Effect>)
    requires |outs| == |ExtensionCommands|
    ensures psql.None? ==> runs == []
    ensures ActivationIsFatal(psql, outs) ==> |runs| == FirstFatal(outs) + 1
    ensures psql.Some? && !ActivationIsFatal(psql, outs) ==> |runs| == |ExtensionCommands|
  {
    match psql
    case None => []
    case Some(tool) =>
      var k := FirstFatal(outs);
      ActivationRuns(tool, if k < |outs| then k + 1 else |outs|)
  }

  /** How activation ended: psql missing (returns False), all statements tried (returns None), or the script stopped. */
  datatype Activation = PsqlMissing | Attempted | Stopped(recovery: Recovery)

  /**
   * Runs the statements in order with one simulated outcome each. Stops at
   * the first fatal outcome, after the recovery step, with the script's exit
   * status 1; every other outcome, including an exception from the run, lets
   * the next statement run.
   */
  method ForceEnablePostgis(psql: Option<string>, outs: seq<RunOutcome>, w: InstallerWorld)
    returns (result: Activation, effects: seq<Effect>)
    requires |outs| == |ExtensionCommands|
    ensures result.PsqlMissing? <==> psql.None?
    ensures result.Stopped? <==> ActivationIsFatal(psql, outs)
    ensures result.Stopped? ==>
      && result.recovery == Recover(outs[FirstFatal(outs)].stderr, w)
      && effects == ActivationTrace(psql, outs) + [RecoveryEffect(result.recovery)]
      && (result.recovery.Installer? ==> result.recovery.path in w.existing)
    ensures !result.Stopped? ==> effects == ActivationTrace(psql, outs)
  {
    if psql.None? {
      return PsqlMissing, [];
    }
    var tool := psql.value;
    effects := [];
    var i := 0;
    while i < |ExtensionCommands|
      invariant 0 <= i <= |ExtensionCommands|
      invariant i <= FirstFatal(outs)
      invariant effects == ActivationRuns(tool, i)
    {
      var sql := ExtensionCommands[i];
      effects := effects + [Run(PsqlArgv(tool, "-c", sql))];
      var outcome := outs[i];
      if IsFatal(outcome) {
        assert FirstFatal(outs) == i;
        var recovery := LaunchStackbuilderFromError(outcome.stderr, w);
        effects := effects + [RecoveryEffect(recovery)];
        return Stopped(recovery), effects;
      }
      i := i + 1;
    }
    result := Attempted;
  }

  /** Without psql nothing is issued and the script goes on. */
  lemma MissingPsqlIssuesNothing(outs: seq<RunOutcome>)
    requires |outs| == |ExtensionCommands|
    ensures ActivationTrace(None, outs) == [] && !ActivationIsFatal(None, outs)
  {
  }

  /**
   * Once a statement fails fatally, no later statement runs: the last run
   * issued is the fatal one.
   */
  lemma {:induction false} FatalIsLastRun(tool: string, outs: seq<RunOutcome>)
    requires |outs| == |ExtensionCommands|
    requires ActivationIsFatal(Some(tool), outs)
    ensures var runs := ActivationTrace(Some(tool), outs);
      runs[|runs| - 1] == Run(PsqlArgv(tool, "-c", ExtensionCommands[FirstFatal(outs)]))
      && IsFatal(outs[FirstFatal(outs)])
      && forall i :: 0 <= i < |runs| - 1 ==> !IsFatal(outs[i])
  {
  }

  /** A failure that is not the missing-extension error is only a warning: both statements run. */
  lemma {:induction false} WarningsDoNotStop(tool: string, outs: seq<RunOutcome>)
    requires |outs| == |ExtensionCommands|
    requires forall i :: 0 <= i < |outs| ==> !IsFatal(outs[i])
    ensures ActivationTrace(Some(tool), outs) ==
      [Run(PsqlArgv(tool, "-c", ExtensionCommands[0])), Run(PsqlArgv(tool, "-c", ExtensionCommands[1]))]
  {
    var k := FirstFatal(outs);
    assert k == |outs|;
  }
}
