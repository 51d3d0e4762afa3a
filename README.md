# OemKill: driver-enumeration text handling

A Dafny model of the text handling in the OemKill tool of the OpenTabletDriver
plugins (`Tool/OemKill/OemKill.cs`). "Restore Driver Defaults" runs
`pnputil -e` through a generated `enumerator.bat`. It scans the listing for
driver packages whose provider is a known OEM driver. It writes a `restore.bat`
that force-deletes those packages and reinstalls the default input driver.
Then it runs that script elevated through powershell. The model covers:

- `PnpText` (`pnp_text.dfy`): the two regular expressions `inf` = `:\s*(.*\.inf)$`
  and `driver` = `:\s*(.*)$` as string functions. Beside them stands an
  independent statement of what the .NET engine captures: the leftmost match
  start, then the greedy `\s*`. Lines are of type `Line`, strings without a
  line feed, because File.ReadAllLines never returns one; on such a line `.`
  matches anything and `$` is the end. `\s` is the .NET class
  `[\f\n\r\t\v\x85\p{Z}]`.
- `OemScan` (`oem_scan.dfy`): the scan loop of RunRestore. It is a `while`
  loop that appends `IndexedInf` records to a sequence, and it is proved
  equal to a recursive specification. The IndexOutOfRangeException that
  `enumOutput[i + 1]` throws after the last line is the `Err` result.
- `OemScripts` (`oem_scripts.dfy`): the lines of `restore.bat` and
  `enumerator.bat`, the powershell argument string of `Call`, and
  `Path.Join` as .NET does it on Windows. Each script, and the argument
  string, comes with a reader that gets the content back.
- `OemRestore` (`oem_restore.dfy`): RunEnum and RunRestore as the ordered
  list of effects they have: scripts written, processes started,
  OEM processes terminated. A run ended by the scan's exception is modelled too. The assets
  folder, the lines read from drivers.txt and the set of known OEM providers
  (`OemData.OemDrivers`, defined outside OemKill.cs) are parameters.

## Model

| member | source | states |
|---|---|---|
| PnpText.InfMatch | Tool/OemKill/OemKill.cs:81-84 | a line yields an inf name exactly when it contains `:` and ends, case-sensitively, with `.inf`; the name is the text after the first `:` with leading whitespace removed, and it ends with `.inf` itself |
| PnpText.InfMatchIsRegexCapture | Tool/OemKill/OemKill.cs:186 | `InfMatch` returns `g` exactly when the `inf` regex, under leftmost-start and greedy-`\s*` semantics, captures `g` as group 1 |
| PnpText.DriverGroup | Tool/OemKill/OemKill.cs:85 | the driver name is the text after the line's first `:` with leading whitespace removed, or `""` when the line has no `:` |
| PnpText.DriverGroupIsRegexCapture | Tool/OemKill/OemKill.cs:187 | on a line with a colon the `driver` regex captures exactly `DriverGroup`'s value; on a line without one it matches nowhere |
| PnpText.ColonPatternIsRegexCapture | Tool/OemKill/OemKill.cs:186-187 | for any pattern `:\s*(.*TAIL)$` whose TAIL does not start with whitespace, the computed group equals the regex engine's capture, both directions |
| PnpText.ColonIndex | Tool/OemKill/OemKill.cs:186-187 | the position where both regexes start their match: the first `:`, or the line length when there is none |
| OemScan.Scan | Tool/OemKill/OemKill.cs:79-92 | the scan fails exactly when the last line contains `:` and ends with `.inf`, since `enumOutput[i + 1]` is then read past the end, and the failure carries the line count as the bad index |
| OemScan.CollectOemDrivers | Tool/OemKill/OemKill.cs:77-92 | the loop over the enumeration lines returns exactly the scan's result: the same records in the same order, or the same out-of-range error |
| OemScan.ScanFailsIffLastLineIsInf | Tool/OemKill/OemKill.cs:79-85 | the scan throws exactly when the last line contains `:` and ends with `.inf`, and the bad index is the line count |
| OemScan.ScanFindsExactlyKnownDrivers | Tool/OemKill/OemKill.cs:79-92 | a successful scan returns one record per line that matches `inf` and whose next line names a known driver, with none missing; indices strictly increase, so output order is line order; every line is tested, including one already read as a driver line |
| OemScan.ScanRecordFacts | Tool/OemKill/OemKill.cs:81-89 | each record's index is the line its inf came from, with a next line present; its inf is that line's capture and ends with `.inf`; its name is the next line's capture and is a known driver |
| OemScripts.WriteRestoreScript | Tool/OemKill/OemKill.cs:108-124 | the successive WriteLine calls, with the `foreach`, write exactly the restore script of the found drivers |
| OemScripts.RestoreScript | Tool/OemKill/OemKill.cs:110-123 | the script for n drivers has 9 + 2n lines: it opens with the 6 fixed header lines and closes with the 3 fixed trailer lines |
| OemScripts.RestoreScriptLayout | Tool/OemKill/OemKill.cs:110-123 | for n drivers the script has 9 + 2n lines: the 6 fixed header lines, then per driver in order `echo Uninstalling '<name>' with driver '<inf>'...` and `pnputil -f -d <inf>`, then the 3 fixed trailer lines |
| OemScripts.RestoreScriptRoundTrip | Tool/OemKill/OemKill.cs:116-120 | reading the script back gives every found driver's provider and inf, in order and nothing else |
| OemScripts.EnumeratorScript | Tool/OemKill/OemKill.cs:147-148 | two lines: the fixed comment, then a line that redirects `pnputil -e` into exactly the given output path |
| OemScripts.EnumeratorScriptText | Tool/OemKill/OemKill.cs:147-148 | the script is, word for word, the line `:: Script auto-generated by OemKill OTD plugin` followed by `pnputil -e > "<output path>"` |
| OemScripts.CallArguments | Tool/OemKill/OemKill.cs:180 | the argument string starts with `-c start ` and ends with the file; unelevated, nothing lies between them; `-verb runas ` follows the prefix, making the string exactly that much longer, when and only when `asAdmin` |
| OemScripts.UnelevatedArguments | Tool/OemKill/OemKill.cs:180 | an unelevated call's arguments are `-c start ` followed by the file |
| OemScripts.ElevatedArguments | Tool/OemKill/OemKill.cs:180 | an elevated call's arguments are `-c start -verb runas ` followed by the file |
| OemScripts.CallArgumentsRoundTrip | Tool/OemKill/OemKill.cs:180 | the argument string names the file and requests `-verb runas` exactly when `asAdmin`, for any file not itself starting with `-verb runas ` |
| OemScripts.CallArgumentsAmbiguous | Tool/OemKill/OemKill.cs:180 | the string does not determine `asAdmin` in general: an unelevated start of `-verb runas x` is the same string as an elevated start of `x` |
| OemScripts.PathJoin | Tool/OemKill/OemKill.cs:142-143 | the joined path starts with the folder and ends with the file name, and an empty part gives back the other part; a `\` is added between them exactly when both parts are non-empty and neither has a directory separator at the joint, otherwise nothing is added |
| OemRestore.Call | Tool/OemKill/OemKill.cs:173-184 | starts `powershell` with the argument string of `CallArguments` and waits for it to exit |
| OemRestore.RunEnum | Tool/OemKill/OemKill.cs:140-152 | writes a two-line script at `enumerator.bat` in the assets folder whose redirect target is `drivers.txt` in the assets folder, then calls that same script without elevation |
| OemRestore.RunRestore | Tool/OemKill/OemKill.cs:66-138 | every run begins with RunEnum's two effects; it raises the scan's exception exactly when the scan fails; it terminates the OEM processes exactly when it is not a simulation and the scan found at least one driver |
| OemRestore.AfterScan | Tool/OemKill/OemKill.cs:94-137 | after the scan, the OEM processes are terminated exactly when the run is real and the scan found at least one driver |
| OemRestore.RunRestoreEnumeratesFirst | Tool/OemKill/OemKill.cs:140-152 | every run starts by writing `enumerator.bat` (redirecting to `drivers.txt` in the assets folder) and calling it without elevation |
| OemRestore.RunRestoreThrows | Tool/OemKill/OemKill.cs:75-92 | the scan's exception is raised exactly when the last listing line matches `inf`, and then nothing follows the enumeration; the other exceptions a run can raise are not modelled (see Left out) |
| OemRestore.NoDriversNoRestore | Tool/OemKill/OemKill.cs:94-105 | with zero records no restore script is written, no process is terminated and the restore script is never started; a simulation only opens the assets folder |
| OemRestore.DriversFoundRestore | Tool/OemKill/OemKill.cs:107-137 | with records, a real run writes `restore.bat` for exactly those records, then terminates the OEM processes, then runs the script with `-c start -verb runas` |
| OemRestore.SimulationActsOnNothing | Tool/OemKill/OemKill.cs:126-132 | a simulation never terminates processes or starts the restore script, whatever the scan finds |
| OemRestore.SimulationWritesScript | Tool/OemKill/OemKill.cs:107-132 | a simulation that found drivers has four effects, and the one right after the enumeration writes `restore.bat` for exactly those drivers |
| OemRestore.PathsDiffer | Tool/OemKill/OemKill.cs:107 | the restore script's path and its elevated call differ from the enumerator's for every assets folder |

## Left out

- Terminate (Tool/OemKill/OemKill.cs:24-52): enumerating and killing processes is operating-system control. The model has only the `TerminateOemProcesses` effect, and `OemData.OemProcesses`, defined outside OemKill.cs, is not modelled.
- Initialize and Dispose: Initialize only calls Terminate, Dispose does nothing.
- Logging (every Log.Write): it has no effect on the result.
- The assets-folder check and creation (lines 68-73). The assembly's location is also left out: the model takes the assets folder as a parameter.
- The wait for `drivers.txt` to appear and the retrying read (lines 154-168): timing and I/O. The lines read are a parameter, and the model assumes the read succeeds. `Call` waits only for powershell's `start`, not for the script, and drivers.txt is never deleted, so those lines may be an earlier run's listing; every property holds for any lines read.
- Creating the assets folder, writing the scripts and starting processes (lines 72, 108, 145, 102, 131, 182) are taken to succeed. The exceptions they can throw are not modelled, so `thrown` is only the scan's IndexOutOfRange.
- The `CreateNoWindow` flag of `Call`, and the behaviour of powershell, explorer and pnputil once started: these are foreign processes.
- `OemData.OemDrivers` is defined outside OemKill.cs, so it is a parameter set. Membership is taken to be exact, case-sensitive string equality, the default for a string collection.
- C# strings are UTF-16; the model's strings are sequences of Unicode scalar values. The regex groups break only at `:`, whitespace and `.inf`, so this does not change any capture.
- Filter/MeL/Filter/MeLFilter.cs and the MLCore predictor it wraps: MLCore is a separate component; its arithmetic is floating point, and the filter itself only passes the point through on error or when not ready.
