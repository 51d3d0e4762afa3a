/** The batch scripts OemKill writes and the argument string it hands to
    powershell (OemKill.RunRestore, RunEnum and Call). A script is the
    sequence of lines written to it, one WriteLine each. */
module OemScripts {
  import opened Wrappers
  import opened PnpText
  import opened OemScan

  // ---------------------------------------------------------------------
  // restore.bat

  const RestoreHeader: seq<string> := [
    "@echo off",
    "echo WARNING! OTD will be closed after you press any key.",
    "pause",
    "taskkill /F /IM OpenTabletDriver.UX.Wpf.exe",
    "taskkill /F /IM OpenTabletDriver.Daemon.exe",
    "echo Script auto-generated by OemKill OTD plugin"
  ]

  const RestoreTrailer: seq<string> := [
    "echo Installing default driver...",
    "pnputil -i -a %SystemRoot%/INF/input.inf",
    "echo Driver restore done! You may now start OTD again"
  ]

  const EchoPrefix := "echo Uninstalling '"
  const EchoMiddle := "' with driver '"
  const EchoSuffix := "'..."
  const DeletePrefix := "pnputil -f -d "

  /** The announcement line written for a driver package. */
  function UninstallEcho(name: string, inf: string): string {
    EchoPrefix + name + EchoMiddle + inf + EchoSuffix
  }

  /** The command that force-deletes a driver package. */
  function UninstallCommand(inf: string): string {
    DeletePrefix + inf
  }

  /** The two lines written per driver, in the order of `ds`. */
  function UninstallSection(ds: seq<IndexedInf>): seq<string> {
    if ds == [] then []
    else
      var d := ds[|ds| - 1];
      UninstallSection(ds[..|ds| - 1]) + [UninstallEcho(d.name, d.inf), UninstallCommand(d.inf)]
  }

  /** restore.bat for the drivers `ds`: the fixed header, two lines per
      driver, the fixed trailer. */
  function RestoreScript(ds: seq<IndexedInf>): (r: seq<string>)
    ensures |r| == 9 + 2 * |ds|
    ensures r[..6] == RestoreHeader && r[6 + 2 * |ds|..] == RestoreTrailer
  {
    UninstallSectionLayout(ds);
    RestoreHeader + UninstallSection(ds) + RestoreTrailer
  }

  /** The `using` block of RunRestore: six header lines, two lines per driver
      in a `foreach`, three trailer lines. */
  method WriteRestoreScript(oemDrivers: seq<IndexedInf>) returns (written: seq<string>)
    ensures written == RestoreScript(oemDrivers)
  {
    written := [];
    written := written + ["@echo off"];
    written := written + ["echo WARNING! OTD will be closed after you press any key."];
    written := written + ["pause"];
    written := written + ["taskkill /F /IM OpenTabletDriver.UX.Wpf.exe"];
    written := written + ["taskkill /F /IM OpenTabletDriver.Daemon.exe"];
    written := written + ["echo Script auto-generated by OemKill OTD plugin"];
    var n := 0;
    while n < |oemDrivers|
      invariant 0 <= n <= |oemDrivers|
      invariant written == RestoreHeader + UninstallSection(oemDrivers[..n])
    {
      var oemDriver := oemDrivers[n];
      assert oemDrivers[..n + 1][..n] == oemDrivers[..n];
      written := written + [EchoPrefix + oemDriver.name + EchoMiddle + oemDriver.inf + EchoSuffix];
      written := written + [DeletePrefix + oemDriver.inf];
      n := n + 1;
    }
    assert oemDrivers[..n] == oemDrivers;
    written := written + ["echo Installing default driver..."];
    written := written + ["pnputil -i -a %SystemRoot%/INF/input.inf"];
    written := written + ["echo Driver restore done! You may now start OTD again"];
  }

  lemma {:induction false} UninstallSectionLayout(ds: seq<IndexedInf>)
    ensures |UninstallSection(ds)| == 2 * |ds|
    ensures forall k :: 0 <= k < |ds| ==>
              && UninstallSection(ds)[2 * k] == UninstallEcho(ds[k].name, ds[k].inf)
              && UninstallSection(ds)[2 * k + 1] == UninstallCommand(ds[k].inf)
    decreases |ds|
  {
    if ds != [] {
      var init := ds[..|ds| - 1];
      UninstallSectionLayout(init);
      forall k | 0 <= k < |init|
        ensures ds[k] == init[k]
      {
      }
    }
  }

  /** For `n` drivers the restore script has `9 + 2n` lines: the fixed header,
      then for each driver in order its announcement and its delete command,
      then the fixed trailer. */
  lemma RestoreScriptLayout(ds: seq<IndexedInf>)
    ensures |RestoreScript(ds)| == 9 + 2 * |ds|
    ensures RestoreScript(ds)[..6] == RestoreHeader
    ensures RestoreScript(ds)[6 + 2 * |ds|..] == RestoreTrailer
    ensures forall k :: 0 <= k < |ds| ==>
              && RestoreScript(ds)[6 + 2 * k] == UninstallEcho(ds[k].name, ds[k].inf)
              && RestoreScript(ds)[7 + 2 * k] == UninstallCommand(ds[k].inf)
  {
    UninstallSectionLayout(ds);
    var body := UninstallSection(ds);
    assert RestoreScript(ds) == RestoreHeader + body + RestoreTrailer;
    forall k | 0 <= k < |ds|
      ensures RestoreScript(ds)[6 + 2 * k] == body[2 * k] && RestoreScript(ds)[7 + 2 * k] == body[2 * k + 1]
    {
    }
  }

  // ---------------------------------------------------------------------
  // Reading a restore script back.

  /** The (provider, inf) pair that an announcement and a delete command
      describe; None when they are not of that shape. */
  function ParseUninstall(echo: string, command: string): Option<(string, string)> {
    if !StartsWith(command, DeletePrefix) then None
    else
      var inf := command[|DeletePrefix|..];
      var tail := EchoMiddle + inf + EchoSuffix;
      if |EchoPrefix| + |tail| <= |echo| && StartsWith(echo, EchoPrefix) && EndsWith(echo, tail)
      then Some((echo[|EchoPrefix|..|echo| - |tail|], inf))
      else None
  }

  function ParseSection(lines: seq<string>): Option<seq<(string, string)>>
    decreases |lines|
  {
    if lines == [] then Some([])
    else if |lines| == 1 then None
    else
      match ParseSection(lines[..|lines| - 2])
      case None => None
      case Some(init) =>
        match ParseUninstall(lines[|lines| - 2], lines[|lines| - 1])
        case None => None
        case Some(pair) => Some(init + [pair])
  }

  /** The drivers a restore script uninstalls, read from its lines. */
  function ParseRestoreScript(lines: seq<string>): Option<seq<(string, string)>> {
    if |lines| >= 9 && lines[..6] == RestoreHeader && lines[|lines| - 3..] == RestoreTrailer
    then ParseSection(lines[6..|lines| - 3])
    else None
  }

  /** What a restore script tells about each driver: its provider and inf. */
  function Uninstalls(ds: seq<IndexedInf>): (r: seq<(string, string)>)
    ensures |r| == |ds|
  {
    seq(|ds|, k requires 0 <= k < |ds| => (ds[k].name, ds[k].inf))
  }

  lemma ParseUninstallRoundTrip(name: string, inf: string)
    ensures ParseUninstall(UninstallEcho(name, inf), UninstallCommand(inf)) == Some((name, inf))
  {
    var command := UninstallCommand(inf);
    assert command[..|DeletePrefix|] == DeletePrefix;
    assert command[|DeletePrefix|..] == inf;
    var echo := UninstallEcho(name, inf);
    var tail := EchoMiddle + inf + EchoSuffix;
    assert echo == EchoPrefix + name + tail;
    assert echo[..|EchoPrefix|] == EchoPrefix;
    assert echo[|echo| - |tail|..] == tail;
    assert echo[|EchoPrefix|..|echo| - |tail|] == name;
  }

  lemma {:induction false} ParseSectionRoundTrip(ds: seq<IndexedInf>)
    ensures ParseSection(UninstallSection(ds)) == Some(Uninstalls(ds))
    decreases |ds|
  {
    if ds != [] {
      var init := ds[..|ds| - 1];
      var d := ds[|ds| - 1];
      var lines := UninstallSection(ds);
      ParseSectionRoundTrip(init);
      UninstallSectionLayout(init);
      assert lines == UninstallSection(init) + [UninstallEcho(d.name, d.inf), UninstallCommand(d.inf)];
      assert lines[..|lines| - 2] == UninstallSection(init);
      ParseUninstallRoundTrip(d.name, d.inf);
      assert Uninstalls(ds) == Uninstalls(init) + [(d.name, d.inf)];
    }
  }

  /** The restore script carries every found driver's provider and inf, in
      order: reading it back gives them all. */
  lemma RestoreScriptRoundTrip(ds: seq<IndexedInf>)
    ensures ParseRestoreScript(RestoreScript(ds)) == Some(Uninstalls(ds))
  {
    var lines := RestoreScript(ds);
    var body := UninstallSection(ds);
    UninstallSectionLayout(ds);
    assert lines[..6] == RestoreHeader;
    assert lines[|lines| - 3..] == RestoreTrailer;
    assert lines[6..|lines| - 3] == body;
    ParseSectionRoundTrip(ds);
  }

  // ---------------------------------------------------------------------
  // enumerator.bat

  const EnumHeader := ":: Script auto-generated by OemKill OTD plugin"
  const EnumPrefix := "pnputil -e > \""

  /** The two lines of RunEnum's script: a comment, then `pnputil -e`
      redirected to the quoted output path. */
  function EnumeratorScript(outputPath: string): (r: seq<string>)
    ensures |r| == 2 && r[0] == EnumHeader
    ensures RedirectTarget(r[1]) == Some(outputPath)
  {
    var line := EnumPrefix + outputPath + "\"";
    assert line[..|EnumPrefix|] == EnumPrefix;
    assert line[|EnumPrefix|..|line| - 1] == outputPath;
    [EnumHeader, line]
  }

  /** The file a `pnputil -e > "..."` line redirects to. */
  function RedirectTarget(line: string): Option<string> {
    if |EnumPrefix| + 1 <= |line| && StartsWith(line, EnumPrefix) && line[|line| - 1] == '"'
    then Some(line[|EnumPrefix|..|line| - 1])
    else None
  }

  /** The enumerator script word for word: the comment, then `pnputil -e`
      redirected into the quoted output path. */
  lemma EnumeratorScriptText(outputPath: string)
    ensures EnumeratorScript(outputPath) ==
      [":: Script auto-generated by OemKill OTD plugin", "pnputil -e > \"" + outputPath + "\""]
  {
  }

  // ---------------------------------------------------------------------
  // powershell arguments

  const StartPrefix := "-c start "
  const RunAs := "-verb runas "

  /** The Arguments of Call: `start` the file, elevated when `asAdmin`. */
  function CallArguments(file: string, asAdmin: bool): (r: string)
    ensures |file| <= |r| && r[|r| - |file|..] == file
    ensures asAdmin <==> |r| == |StartPrefix| + |RunAs| + |file|
    ensures !asAdmin ==> |r| == |StartPrefix| + |file|
    ensures r[..|StartPrefix|] == StartPrefix
    ensures asAdmin ==> r[|StartPrefix|..|StartPrefix| + |RunAs|] == RunAs
  {
    if asAdmin then StartPrefix + RunAs + file else StartPrefix + file
  }

  /** The file and elevation a `-c start ...` argument string asks for. */
  function ParseCallArguments(arguments: string): Option<(string, bool)> {
    if !StartsWith(arguments, StartPrefix) then None
    else
      var rest := arguments[|StartPrefix|..];
      if StartsWith(rest, RunAs) then Some((rest[|RunAs|..], true)) else Some((rest, false))
  }

  /** The argument string names the file and asks for elevation exactly when
      `asAdmin`, for every file that does not itself begin with `-verb runas `
      (a file that does reads as an elevated start of the rest). */
  lemma CallArgumentsRoundTrip(file: string, asAdmin: bool)
    requires !StartsWith(file, RunAs)
    ensures ParseCallArguments(CallArguments(file, asAdmin)) == Some((file, asAdmin))
  {
    var args := CallArguments(file, asAdmin);
    assert args[..|StartPrefix|] == StartPrefix;
    var rest := args[|StartPrefix|..];
    if asAdmin {
      assert rest == RunAs + file;
      assert rest[..|RunAs|] == RunAs;
      assert rest[|RunAs|..] == file;
    } else {
      assert rest == file;
    }
  }

  /** The elevated argument string, spelled out. */
  lemma ElevatedArguments(file: string)
    ensures CallArguments(file, true) == "-c start -verb runas " + file
  {
    assert StartPrefix + RunAs == "-c start -verb runas ";
  }

  /** An unelevated call's arguments are `-c start ` and the file. */
  lemma UnelevatedArguments(file: string)
    ensures CallArguments(file, false) == "-c start " + file
  {
  }

  /** Without that restriction the argument string does not determine
      `asAdmin`: an unelevated start of `-verb runas x` equals an elevated
      start of `x`. */
  lemma CallArgumentsAmbiguous()
    ensures CallArguments(RunAs + "x", false) == CallArguments("x", true)
  {
    assert StartPrefix + (RunAs + "x") == StartPrefix + RunAs + "x";
  }

  // ---------------------------------------------------------------------
  // Path.Join

  predicate IsDirectorySeparator(c: char) {
    c == '\\' || c == '/'
  }

  /** System.IO.Path.Join on Windows: an empty part yields the other one;
      otherwise one `\` goes between them unless one already stands there. */
  function PathJoin(first: string, second: string): (r: string)
    ensures first == [] ==> r == second
    ensures second == [] ==> r == first
    ensures StartsWith(r, first) && EndsWith(r, second)
    ensures |r| == |first| + |second| || (|r| == |first| + 1 + |second| && r[|first|] == '\\')
    ensures |r| == |first| + 1 + |second| <==>
              first != [] && second != [] && !IsDirectorySeparator(first[|first| - 1]) && !IsDirectorySeparator(second[0])
  {
    if first == [] then second
    else if second == [] then first
    else if IsDirectorySeparator(first[|first| - 1]) || IsDirectorySeparator(second[0]) then
      var r := first + second;
      assert r[..|first|] == first && r[|r| - |second|..] == second;
      r
    else
      var r := first + "\\" + second;
      assert r[..|first|] == first && r[|r| - |second|..] == second;
      r
  }
}
