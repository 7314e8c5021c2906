/** The option checks of `main` in geedar_lib/cli.py: running-mode detection,
    path defaults and the validation of `aoi_radius`, `time_window` and
    `append_mode`. `input_path`, `output`, `running_mode`, `aoi_path` and
    `append_mode` arrive as text; typer converts `aoi_radius` and
    `time_window` to integers before `main` runs. */
module Cli {
  import opened Wrappers
  import opened PyText

  datatype CliError =
    | ExtensionNotRecognised   // no ".db", ".csv" or ".kml" suffix and no explicit mode
    | RunningModeNotInteger    // `int(running_mode)` failed
    | RunningModeTypeError     // `len(running_mode)` applied to an int
    | UnrecognisedRunningMode  // an integer mode outside 1..5
    | InputFileNotFound
    | OutputDirNotFound
    | BadAoiRadius
    | BadTimeWindow

  /** The labels of the five running modes. */
  const RunningModes: seq<string> := [
    "1 (specific dates)", "2 (date ranges)", "3 (database update)",
    "4 (database overwrite)", "5 (estimation overwrite)"]

  // ------------------------------------------------------------ running mode

  /** Lines 36-56 as written: with no explicit mode the input's extension decides
      (3 for ".db", 0 for ".csv"/".kml", to be refined when the input is loaded);
      an explicit mode either fails to parse or reaches `len()` of an int. */
  function DetectRunningModeAsWritten(inputPath: string, runningMode: string): (r: Result<int, CliError>)
    ensures runningMode != "" ==> r.Err?
  {
    if runningMode == "" then ModeFromExtension(inputPath)
    else match ParseInt(runningMode)
      case None => Err(RunningModeNotInteger)
      case Some(_) => Err(RunningModeTypeError)
  }

  /** The extension rule shared by both versions. */
  function ModeFromExtension(inputPath: string): (r: Result<int, CliError>)
    ensures r == Ok(3) <==> EndsWith(inputPath, ".db")
    ensures r == Ok(0) <==> !EndsWith(inputPath, ".db") && (EndsWith(inputPath, ".csv") || EndsWith(inputPath, ".kml"))
    ensures r.Err? <==> !EndsWith(inputPath, ".db") && !EndsWith(inputPath, ".csv") && !EndsWith(inputPath, ".kml")
  {
    if !EndsWith(inputPath, ".db") && !EndsWith(inputPath, ".csv") && !EndsWith(inputPath, ".kml") then
      Err(ExtensionNotRecognised)
    else if EndsWith(inputPath, ".db") then Ok(3)
    else Ok(0)
  }

  /** Lines 36-56 with the range check the message describes: an explicit mode
      must be an integer in 1..len(running_modes). */
  function DetectRunningMode(inputPath: string, runningMode: string): (r: Result<int, CliError>)
    ensures runningMode == "" ==> r == ModeFromExtension(inputPath)
    ensures runningMode != "" ==> (r.Ok? <==> exists m :: ParseInt(runningMode) == Some(m) && 1 <= m <= |RunningModes|)
    ensures r.Ok? ==> 0 <= r.value <= |RunningModes|
  {
    if runningMode == "" then ModeFromExtension(inputPath)
    else match ParseInt(runningMode)
      case None => Err(RunningModeNotInteger)
      case Some(m) => if 1 <= m <= |RunningModes| then Ok(m) else Err(UnrecognisedRunningMode)
  }

  /** The defect: every explicit running mode is refused, even "1". */
  lemma {:induction false} ExplicitModeRejectedAsWritten()
    ensures DetectRunningModeAsWritten("points.csv", "1") == Err(RunningModeTypeError)
    ensures DetectRunningMode("points.csv", "1") == Ok(1)
  {
    assert DigitsValue("1") == 1;
  }

  /** `int()` reads digit groups: the explicit mode "0_1" is mode 1. */
  lemma {:induction false} GroupedModeAccepted()
    ensures DetectRunningMode("points.csv", "0_1") == Ok(1)
  {
    UnderscoreIgnored();
  }

  // ------------------------------------------------------------------- paths

  /** Index just past the last '/', 0 when there is none. */
  function AfterLastSlash(p: string): (i: nat)
    ensures i <= |p|
    ensures i > 0 ==> p[i - 1] == '/'
    ensures forall k :: i <= k < |p| ==> p[k] != '/'
  {
    if p == [] then 0
    else if p[|p| - 1] == '/' then |p|
    else AfterLastSlash(p[..|p| - 1])
  }

  predicate AllSlashes(s: string)
  {
    forall i :: 0 <= i < |s| ==> s[i] == '/'
  }

  function StripTrailingSlashes(s: string): (r: string)
    ensures |r| <= |s| && r == s[..|r|]
    ensures r == [] || r[|r| - 1] != '/'
  {
    if s != [] && s[|s| - 1] == '/' then StripTrailingSlashes(s[..|s| - 1]) else s
  }

  /** `os.path.split` on POSIX: the tail is what follows the last '/', the head
      what precedes it, trailing slashes removed unless the head is only slashes. */
  function SplitPath(p: string): (r: (string, string))
    ensures r.1 == p[AfterLastSlash(p)..] && '/' !in r.1
    ensures r.0 == "" <==> '/' !in p
  {
    var i := AfterLastSlash(p);
    var head := p[..i];
    assert '/' !in p[i..];
    assert i > 0 ==> head[i - 1] == '/';
    if head != "" && !AllSlashes(head) then
      var h := StripTrailingSlashes(head);
      assert h != "" by {
        if h == "" { NonSlashSurvives(head); }
      }
      (h, p[i..])
    else (head, p[i..])
  }

  lemma {:induction false} NonSlashSurvives(s: string)
    requires !AllSlashes(s)
    ensures StripTrailingSlashes(s) != ""
  {
    if s != [] && s[|s| - 1] == '/' {
      assert !AllSlashes(s[..|s| - 1]) by {
        var k :| 0 <= k < |s| && s[k] != '/';
        assert k < |s| - 1 && s[..|s| - 1][k] != '/';
      }
      NonSlashSurvives(s[..|s| - 1]);
    }
  }

  /** `os.path.join(a, b)` on POSIX for two components. */
  function JoinPath(a: string, b: string): (r: string)
    ensures b != [] && b[0] == '/' ==> r == b
    ensures !(b != [] && b[0] == '/') ==> |r| >= |b| && r[|r| - |b|..] == b
  {
    if b != [] && b[0] == '/' then b
    else if a == "" || a[|a| - 1] == '/' then a + b
    else a + "/" + b
  }

  /** Lines 58-63: the directory part of the input path, "./" when it is empty. */
  function InputDirectory(inputPath: string): (d: string)
    ensures d == "./" <==> '/' !in inputPath
  {
    var head := SplitPath(inputPath).0;
    if head == "" then "./" else
      assert head != "./" by { SplitHeadNotDotSlash(inputPath); }
      head
  }

  lemma {:induction false} SplitHeadNotDotSlash(p: string)
    ensures SplitPath(p).0 != "./"
  {
    var i := AfterLastSlash(p);
    var head := p[..i];
    if head != "" && !AllSlashes(head) {
      var h := StripTrailingSlashes(head);
      assert SplitPath(p).0 == h;
      assert h == [] || h[|h| - 1] != '/';
    } else {
      assert SplitPath(p).0 == head;
      assert !AllSlashes("./") by { assert "./"[0] != '/'; }
    }
  }

  /** `s[:-4]`: drop the last four characters; shorter strings become empty. */
  function DropLast4(s: string): (r: string)
    ensures |s| >= 4 ==> r + s[|s| - 4..] == s
    ensures |s| < 4 ==> r == ""
  {
    if |s| >= 4 then s[..|s| - 4] else ""
  }

  /** Lines 98-104: the output file used when none is given. */
  function DefaultOutputFile(inputFile: string): (f: string)
    ensures inputFile == "*.kml" ==> f == "kml_result.csv"
    ensures inputFile != "*.kml" && |inputFile| >= 4 ==> f == inputFile[..|inputFile| - 4] + "_result.csv"
    ensures EndsWith(f, "_result.csv")
  {
    if inputFile == "*.kml" then "kml_result.csv" else DropLast4(inputFile) + "_result.csv"
  }

  /** Lines 96-118: the output path. An empty option derives it from the input;
      an option without a directory part is placed in the input directory; a
      directory that does not exist is an error. */
  function OutputPath(output: string, inputDir: string, inputFile: string,
                      dirExists: string -> bool): (r: Result<string, CliError>)
    ensures output == "" ==> r == Ok(JoinPath(inputDir, DefaultOutputFile(inputFile)))
    ensures output != "" && '/' !in output ==> r == Ok(JoinPath(inputDir, output))
    ensures r.Err? <==> output != "" && '/' in output && !dirExists(SplitPath(output).0)
    ensures output != "" && '/' in output && r.Ok? ==> r.value == output
  {
    if output == "" then Ok(JoinPath(inputDir, DefaultOutputFile(inputFile)))
    else
      var (dir, file) := SplitPath(output);
      if dir == "" then
        assert file == output by { assert AfterLastSlash(output) == 0; }
        Ok(JoinPath(inputDir, file))
      else if !dirExists(dir) then Err(OutputDirNotFound)
      else Ok(output)
  }

  /** The file part of a joined path is the file joined on (so the derived output
      file is placed in the directory it is joined to). */
  lemma {:induction false} SplitOfJoin(a: string, f: string)
    requires f != "" && '/' !in f
    ensures SplitPath(JoinPath(a, f)).1 == f
    ensures SplitPath(JoinPath(a, f)).0 == "" <==> a == ""
  {
    var j := JoinPath(a, f);
    assert j[|j| - |f|..] == f;
    AfterLastSlashOfSuffix(j, |j| - |f|);
    if a != "" {
      assert j[|j| - |f| - 1] == '/' by {
        if a[|a| - 1] == '/' { assert j[..|a|] == a; } else { assert j == a + "/" + f; }
      }
    }
  }

  lemma {:induction false} AfterLastSlashOfSuffix(p: string, i: nat)
    requires i <= |p| && '/' !in p[i..]
    requires i > 0 ==> p[i - 1] == '/'
    ensures AfterLastSlash(p) == i
    decreases |p|
  {
    if |p| > i {
      assert p[|p| - 1] == p[i..][|p| - 1 - i];
      assert p[..|p| - 1][i..] == p[i..|p| - 1];
      assert forall c :: c in p[i..|p| - 1] ==> c in p[i..];
      AfterLastSlashOfSuffix(p[..|p| - 1], i);
    }
  }

  // ---------------------------------------------------------------- options

  /** Lines 125-133: the radius must be greater than zero. Typer has already
      turned the option into an integer (line 29), so the test `aoi_radius != ""`
      of line 125 always holds and `int()` returns it unchanged; the KML
      selection of lines 134-135 is never reached. */
  function AoiRadius(aoiRadius: int): (r: Result<nat, CliError>)
    ensures r.Ok? <==> aoiRadius > 0
    ensures r.Ok? ==> r.value == aoiRadius
    ensures r.Err? ==> r.error == BadAoiRadius
  {
    if aoiRadius <= 0 then Err(BadAoiRadius) else Ok(aoiRadius)
  }

  /** Lines 138-145: the time window, already an integer (line 31), must not
      be below zero. */
  function TimeWindow(timeWindow: int): (r: Result<nat, CliError>)
    ensures r.Ok? <==> timeWindow >= 0
    ensures r.Ok? ==> r.value == timeWindow
    ensures r.Err? ==> r.error == BadTimeWindow
  {
    if timeWindow < 0 then Err(BadTimeWindow) else Ok(timeWindow)
  }

  /** What `append_mode` holds after line 149. */
  datatype AppendFlag = AppendOn | KeptText(text: string)

  /** Lines 148-149: anything but "", "False" and "0" switches append mode on;
      those three keep their (falsy or string) value. */
  function AppendMode(appendMode: string): (r: AppendFlag)
    ensures r == AppendOn <==> appendMode !in {"", "False", "0"}
    ensures r.KeptText? ==> r.text == appendMode
  {
    if !(appendMode in ["", "False", "0"]) then AppendOn else KeptText(appendMode)
  }

  /** The options that survive validation in running modes below 3. */
  datatype Options = Options(outputPath: string, aoiRadius: nat, timeWindow: nat, append: AppendFlag)

  datatype Config = Config(runningMode: int, inputDir: string, inputFile: string, options: Option<Options>)

  /** `main`'s decisions, in the order the checks are made; the file system is
      consulted through `fileExists` and `dirExists`. Modes 3 to 5 carry no
      options: the database modes are reported as unsupported. */
  function Configure(inputPath: string, output: string, runningMode: string,
                     aoiPath: string, aoiRadius: int, appendMode: string,
                     timeWindow: int, fileExists: string -> bool,
                     dirExists: string -> bool): (r: Result<Config, CliError>)
    ensures r.Ok? ==> DetectRunningMode(inputPath, runningMode) == Ok(r.value.runningMode)
    ensures r.Ok? ==> r.value.inputDir == InputDirectory(inputPath) && r.value.inputFile == SplitPath(inputPath).1
    ensures r.Ok? ==> (r.value.options.Some? <==> r.value.runningMode < 3)
    ensures r.Ok? && r.value.options.Some? ==>
      var o := r.value.options.value;
      OutputPath(output, r.value.inputDir, r.value.inputFile, dirExists) == Ok(o.outputPath) &&
      AoiRadius(aoiRadius) == Ok(o.aoiRadius) &&
      TimeWindow(timeWindow) == Ok(o.timeWindow) &&
      o.append == AppendMode(appendMode) &&
      (fileExists(inputPath) || r.value.inputFile == "*.kml")
    ensures DetectRunningMode(inputPath, runningMode).Err? ==> r == Err(DetectRunningMode(inputPath, runningMode).error)
    // a detected mode succeeds exactly when it is a database mode or every check passes
    ensures DetectRunningMode(inputPath, runningMode).Ok? ==>
      (r.Ok? <==>
         (DetectRunningMode(inputPath, runningMode).value >= 3 ||
          ((fileExists(inputPath) || SplitPath(inputPath).1 == "*.kml") &&
           OutputPath(output, InputDirectory(inputPath), SplitPath(inputPath).1, dirExists).Ok? &&
           aoiRadius > 0 && timeWindow >= 0)))
  {
    match DetectRunningMode(inputPath, runningMode)
    case Err(e) => Err(e)
    case Ok(mode) =>
      var inputDir := InputDirectory(inputPath);
      var inputFile := SplitPath(inputPath).1;
      if mode >= 3 then Ok(Config(mode, inputDir, inputFile, None))
      else if !fileExists(inputPath) && inputFile != "*.kml" then Err(InputFileNotFound)
      else match OutputPath(output, inputDir, inputFile, dirExists)
        case Err(e) => Err(e)
        case Ok(outPath) =>
          match AoiRadius(aoiRadius)
          case Err(e) => Err(e)
          case Ok(radius) =>
            match TimeWindow(timeWindow)
            case Err(e) => Err(e)
            case Ok(tw) =>
              Ok(Config(mode, inputDir, inputFile, Some(Options(outPath, radius, tw, AppendMode(appendMode)))))
  }

  /** With the defaults of lines 25-31, an existing ".csv" input in the working
      directory runs mode 0 with a 1000 m radius, a 2-day window, append mode
      off and the output "<name>_result.csv" beside the input. */
  lemma {:induction false} DefaultsConfigured(inputFile: string, fileExists: string -> bool, dirExists: string -> bool)
    requires EndsWith(inputFile, ".csv") && '/' !in inputFile && fileExists(inputFile)
    ensures var r := Configure(inputFile, "", "", "", 1000, "", 2, fileExists, dirExists);
      r.Ok? && r.value.runningMode == 0 && r.value.inputDir == "./" && r.value.options.Some? &&
      r.value.options.value == Options("./" + inputFile[..|inputFile| - 4] + "_result.csv", 1000, 2, KeptText(""))
  {
    CsvInWorkingDir(inputFile);
    DefaultOutputInWorkingDir(inputFile, dirExists);
  }

  /** Without an output option, a ".csv" input in "./" writes "<name>_result.csv" there. */
  lemma {:induction false} DefaultOutputInWorkingDir(inputFile: string, dirExists: string -> bool)
    requires EndsWith(inputFile, ".csv") && '/' !in inputFile
    ensures OutputPath("", "./", inputFile, dirExists) == Ok("./" + inputFile[..|inputFile| - 4] + "_result.csv")
  {
    CsvInWorkingDir(inputFile);
    var name := inputFile[..|inputFile| - 4] + "_result.csv";
    assert DefaultOutputFile(inputFile) == name;
    assert name[0] != '/' by {
      if |inputFile| > 4 { assert name[0] == inputFile[0]; }
    }
    assert JoinPath("./", name) == "./" + name;
    assert "./" + name == "./" + inputFile[..|inputFile| - 4] + "_result.csv";
    assert OutputPath("", "./", inputFile, dirExists) == Ok(JoinPath("./", name));
  }

  /** A ".csv" file name without a directory part runs mode 0 from "./". */
  lemma {:induction false} CsvInWorkingDir(inputFile: string)
    requires EndsWith(inputFile, ".csv") && '/' !in inputFile
    ensures |inputFile| >= 4 && DetectRunningMode(inputFile, "") == Ok(0)
    ensures SplitPath(inputFile).1 == inputFile && InputDirectory(inputFile) == "./" && inputFile != "*.kml"
  {
    assert !EndsWith(inputFile, ".db") by {
      assert inputFile[|inputFile| - 1] == 'v';
    }
    assert AfterLastSlash(inputFile) == 0;
    assert SplitPath(inputFile).1 == inputFile;
    assert inputFile != "*.kml" by { assert inputFile[|inputFile| - 1] == 'v'; }
  }
}
