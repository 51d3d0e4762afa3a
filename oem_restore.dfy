/** OemKill.RunRestore and RunEnum as the ordered effects they have on the
    machine. The lines read from drivers.txt are a parameter, as
    File.ReadAllLines returns them; the set of known OEM providers is a parameter. */
module OemRestore {
  import opened Wrappers
  import opened PnpText
  import opened OemScan
  import opened OemScripts

  datatype Effect =
    | WriteScript(path: string, lines: seq<string>)
      /** Process.Start; `wait` when WaitForExit follows (Call does this). */
    | StartProcess(program: string, arguments: string, wait: bool)
      /** Terminate(): kill the known OEM processes. */
    | TerminateOemProcesses

  /** The effects of a run, in order, and the scan exception that ended it,
      if any; the exceptions of file and process calls are not modelled. */
  datatype Trace = Trace(effects: seq<Effect>, thrown: Option<ScanError>)

  /** Call(file, asAdmin): powershell starts the file and is waited for. */
  function Call(file: string, asAdmin: bool): (e: Effect)
    ensures e.StartProcess? && e.program == "powershell" && e.wait
    ensures e.arguments == CallArguments(file, asAdmin)
  {
    StartProcess("powershell", CallArguments(file, asAdmin), true)
  }

  function OpenExplorer(assets: string): Effect {
    StartProcess("explorer", assets, false)
  }

  function EnumScriptPath(assets: string): string { PathJoin(assets, "enumerator.bat") }
  function EnumOutputPath(assets: string): string { PathJoin(assets, "drivers.txt") }
  function RestoreScriptPath(assets: string): string { PathJoin(assets, "restore.bat") }

  /** RunEnum up to the moment its output file is read. */
  function RunEnum(assets: string): (r: seq<Effect>)
    ensures |r| == 2 && r[0].WriteScript? && r[0].path == EnumScriptPath(assets)
    ensures |r[0].lines| == 2 && RedirectTarget(r[0].lines[1]) == Some(EnumOutputPath(assets))
    ensures r[1] == Call(r[0].path, false)
  {
    [ WriteScript(EnumScriptPath(assets), EnumeratorScript(EnumOutputPath(assets))),
      Call(EnumScriptPath(assets), false) ]
  }

  /** RunRestore(simulate) given the assets folder, the lines read from
      drivers.txt and the known OEM providers. */
  function RunRestore(assets: string, enumOutput: seq<Line>, known: set<string>, simulate: bool): (t: Trace)
    ensures |t.effects| >= 2 && t.effects[..2] == RunEnum(assets)
    ensures t.thrown.Some? <==> Scan(enumOutput, known).Err?
    ensures TerminateOemProcesses in t.effects <==>
              !simulate && Scan(enumOutput, known).Ok? && Scan(enumOutput, known).value != []
  {
    var enumerated := RunEnum(assets);
    var scanned := Scan(enumOutput, known);
    var rest := AfterScan(assets, scanned, simulate);
    assert (enumerated + rest)[..2] == enumerated;
    Trace(enumerated + rest, if scanned.Err? then Some(scanned.error) else None)
  }

  /** What RunRestore does once the scan has returned or thrown. */
  function AfterScan(assets: string, scanned: Result<seq<IndexedInf>, ScanError>, simulate: bool): (r: seq<Effect>)
    ensures TerminateOemProcesses in r <==> !simulate && scanned.Ok? && scanned.value != []
  {
    match scanned
    case Err(_) => []
    case Ok(oemDrivers) =>
      if oemDrivers == [] then
        (if simulate then [OpenExplorer(assets)] else [])
      else
        var script := RestoreScriptPath(assets);
        var written := [WriteScript(script, RestoreScript(oemDrivers))];
        if simulate then written + [OpenExplorer(assets)]
        else written + [TerminateOemProcesses, Call(script, true)]
  }

  /** The effects by which a run changes the installed drivers: killing the
      OEM processes, or starting the restore script. */
  predicate ActsOnDrivers(assets: string, e: Effect) {
    e.TerminateOemProcesses? || (e.StartProcess? && e.arguments == CallArguments(RestoreScriptPath(assets), true))
  }

  /** Every run first writes the enumerator script and runs it unelevated. */
  lemma RunRestoreEnumeratesFirst(assets: string, enumOutput: seq<Line>, known: set<string>, simulate: bool)
    ensures var t := RunRestore(assets, enumOutput, known, simulate);
      && |t.effects| >= 2
      && t.effects[0] == WriteScript(EnumScriptPath(assets), EnumeratorScript(EnumOutputPath(assets)))
      && t.effects[1] == StartProcess("powershell", CallArguments(EnumScriptPath(assets), false), true)
  {
  }

  /** The scan's exception ends the run exactly when the scan fails, after enumerating and
      before writing or starting anything else. */
  lemma RunRestoreThrows(assets: string, enumOutput: seq<Line>, known: set<string>, simulate: bool)
    ensures var t := RunRestore(assets, enumOutput, known, simulate);
      && (t.thrown.Some? <==> |enumOutput| > 0 && InfMatch(enumOutput[|enumOutput| - 1]).Some?)
      && (t.thrown.Some? ==> t.effects == RunEnum(assets) && t.thrown.value == IndexOutOfRange(|enumOutput|))
  {
    ScanFailsIffLastLineIsInf(enumOutput, known);
  }

  /** When no known OEM driver is found no restore script is written and
      nothing acts on the drivers; a simulation only opens the assets folder. */
  lemma NoDriversNoRestore(assets: string, enumOutput: seq<Line>, known: set<string>, simulate: bool)
    requires Scan(enumOutput, known) == Ok([])
    ensures var t := RunRestore(assets, enumOutput, known, simulate);
      && t.thrown.None?
      && t.effects == RunEnum(assets) + (if simulate then [OpenExplorer(assets)] else [])
      && forall k :: 0 <= k < |t.effects| ==>
           && !ActsOnDrivers(assets, t.effects[k])
           && !(t.effects[k].WriteScript? && t.effects[k].path == RestoreScriptPath(assets))
  {
    var rest: seq<Effect> := if simulate then [OpenExplorer(assets)] else [];
    assert AfterScan(assets, Ok([]), simulate) == rest;
    assert RunRestore(assets, enumOutput, known, simulate) == Trace(RunEnum(assets) + rest, None);
    PathsDiffer(assets);
    HarmlessEffects(assets, rest);
    NoRestoreWrite(assets, rest);
  }

  /** The enumeration followed by explorer writes no `restore.bat`. */
  lemma NoRestoreWrite(assets: string, rest: seq<Effect>)
    requires forall k :: 0 <= k < |rest| ==> rest[k] == OpenExplorer(assets)
    requires EnumScriptPath(assets) != RestoreScriptPath(assets)
    ensures var effects := RunEnum(assets) + rest;
      forall k :: 0 <= k < |effects| ==> !(effects[k].WriteScript? && effects[k].path == RestoreScriptPath(assets))
  {
    var effects := RunEnum(assets) + rest;
    forall k | 0 <= k < |effects|
      ensures !(effects[k].WriteScript? && effects[k].path == RestoreScriptPath(assets))
    {
      if k == 0 {
        assert effects[k].path == EnumScriptPath(assets);
      } else if k == 1 {
        assert effects[k] == Call(EnumScriptPath(assets), false);
      } else {
        assert effects[k] == rest[k - 2];
      }
    }
  }

  /** With drivers found, a real run writes the restore script for exactly
      them, terminates the OEM processes and then runs the script elevated. */
  lemma DriversFoundRestore(assets: string, enumOutput: seq<Line>, known: set<string>)
    requires Scan(enumOutput, known).Ok? && Scan(enumOutput, known).value != []
    ensures var t := RunRestore(assets, enumOutput, known, false);
      && t.thrown.None?
      && t.effects == RunEnum(assets) + [
           WriteScript(RestoreScriptPath(assets), RestoreScript(Scan(enumOutput, known).value)),
           TerminateOemProcesses,
           StartProcess("powershell", "-c start -verb runas " + RestoreScriptPath(assets), true)]
  {
    var script := RestoreScriptPath(assets);
    var rest := AfterScan(assets, Scan(enumOutput, known), false);
    assert RunRestore(assets, enumOutput, known, false) == Trace(RunEnum(assets) + rest, None);
    ElevatedArguments(script);
    assert rest == [WriteScript(script, RestoreScript(Scan(enumOutput, known).value)), TerminateOemProcesses, Call(script, true)];
  }

  /** A simulation never acts on the drivers, whatever the scan finds. */
  lemma SimulationActsOnNothing(assets: string, enumOutput: seq<Line>, known: set<string>)
    ensures var t := RunRestore(assets, enumOutput, known, true);
      forall k :: 0 <= k < |t.effects| ==> !ActsOnDrivers(assets, t.effects[k])
  {
    var rest := AfterScan(assets, Scan(enumOutput, known), true);
    assert RunRestore(assets, enumOutput, known, true).effects == RunEnum(assets) + rest;
    SimulatedRestHarmless(assets, Scan(enumOutput, known));
    PathsDiffer(assets);
    HarmlessEffects(assets, rest);
  }

  /** After the scan a simulation only writes files and opens explorer. */
  lemma SimulatedRestHarmless(assets: string, scanned: Result<seq<IndexedInf>, ScanError>)
    ensures var rest := AfterScan(assets, scanned, true);
      forall k :: 0 <= k < |rest| ==> rest[k].WriteScript? || rest[k] == OpenExplorer(assets)
  {
    var rest := AfterScan(assets, scanned, true);
    forall k | 0 <= k < |rest|
      ensures rest[k].WriteScript? || rest[k] == OpenExplorer(assets)
    {
      if scanned.Ok? && scanned.value != [] && k == 0 {
        assert rest[k] == WriteScript(RestoreScriptPath(assets), RestoreScript(scanned.value));
      }
    }
  }

  /** A simulation still writes the restore script when there are drivers
      to restore, right after the enumeration. */
  lemma SimulationWritesScript(assets: string, enumOutput: seq<Line>, known: set<string>)
    requires Scan(enumOutput, known).Ok? && Scan(enumOutput, known).value != []
    ensures var t := RunRestore(assets, enumOutput, known, true);
      |t.effects| == 4 && t.effects[2] == WriteScript(RestoreScriptPath(assets), RestoreScript(Scan(enumOutput, known).value))
  {
    SimulatedEffects(assets, enumOutput, known);
  }

  /** The effects of a simulation: the enumeration, the restore script when
      there are drivers, and explorer unless the scan threw. */
  lemma SimulatedEffects(assets: string, enumOutput: seq<Line>, known: set<string>)
    ensures RunRestore(assets, enumOutput, known, true).effects ==
      RunEnum(assets) +
      (match Scan(enumOutput, known)
       case Err(_) => []
       case Ok(rs) =>
         (if rs == [] then [] else [WriteScript(RestoreScriptPath(assets), RestoreScript(rs))]) + [OpenExplorer(assets)])
  {
  }

  /** The enumeration followed by effects that only write files or open
      explorer neither terminates processes nor starts the restore script
      elevated. */
  lemma HarmlessEffects(assets: string, rest: seq<Effect>)
    requires forall k :: 0 <= k < |rest| ==> rest[k].WriteScript? || rest[k] == OpenExplorer(assets)
    requires CallArguments(EnumScriptPath(assets), false) != CallArguments(RestoreScriptPath(assets), true)
    ensures var effects := RunEnum(assets) + rest;
      forall k :: 0 <= k < |effects| ==> !ActsOnDrivers(assets, effects[k])
  {
    var effects := RunEnum(assets) + rest;
    forall k | 0 <= k < |effects|
      ensures !ActsOnDrivers(assets, effects[k])
    {
      if k >= 2 {
        assert effects[k] == rest[k - 2];
      } else {
        assert effects[k] == RunEnum(assets)[k];
      }
    }
  }

  /** The enumerator call and the restore call can never be mistaken for one
      another, nor the two scripts' paths. */
  lemma PathsDiffer(assets: string)
    ensures EnumScriptPath(assets) != RestoreScriptPath(assets)
    ensures CallArguments(EnumScriptPath(assets), false) != CallArguments(RestoreScriptPath(assets), true)
  {
    assert |EnumScriptPath(assets)| != |RestoreScriptPath(assets)|;
    assert |CallArguments(EnumScriptPath(assets), false)| != |CallArguments(RestoreScriptPath(assets), true)|;
  }
}
