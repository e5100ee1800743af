/** The `runner` command: check the command line, pick the kernel executable,
    decide between test and run mode, read the configuration and build the
    QEMU command line. Every effect on the outside world (the cargo build, the
    environment, the file system, the spawned tools) is an input here, given
    by its observable result. */
module Runner {
  import opened Wrappers
  import opened Toml
  import opened BootConfig
  import opened Paths

  datatype Command = RunnerCommand | HelpCommand

  datatype RunError =
    | NoOperation                          // no first argument
    | UnrecognizedOption(option: string)   // a first argument other than `runner` and `--help`
    | BuildNotExecuted                     // `cargo build` could not be started
    | BuildFailed                          // `cargo build` exited unsuccessfully
    | InvalidUtf8                          // the build output is not UTF-8
    | InvalidJson                          // a line of the build output is not JSON
    | ManifestDirUnset                     // `CARGO_MANIFEST_DIR` is not set
    | NoParent                             // the kernel path has no parent
    | ConfigUnreadable                     // Cargo.toml cannot be opened, read or parsed
    | ConfigRejected(error: ConfigError)   // the `grub-bootimage` table is rejected
    | FileSystem                           // creating the ISO tree failed

  /** The ways the command aborts by panicking rather than returning an error. */
  datatype Panic =
    | HelpNotImplemented   // `--help` reaches `todo!()`
    | MetadataFailed       // `cargo metadata` failed (`unwrap`)
    | NoExecutable         // the list of executables is empty (`[0]`)
    | GrubNotExecuted      // `grub-mkrescue` could not be started (`expect`)
    | QemuNotExecuted      // QEMU could not be started (`expect`)

  /** One line of `cargo build --message-format json` output: not JSON at all,
      or a JSON value whose `executable` field is a string or is not. */
  datatype BuildLine = NotJson | Artifact(executable: Option<string>)

  /** The result of running `cargo build`: not started, or exited with a
      status and a standard output that is UTF-8 text split into lines, or
      is not UTF-8 (None). */
  datatype BuildOutput = NotExecuted | Exited(success: bool, stdout: Option<seq<BuildLine>>)

  /** Everything the command observes of the outside world: its arguments,
      the build, and what it meets after the build. */
  datatype Environment = Environment(
    args: seq<string>,                // `env::args()`, the program name first
    build: BuildOutput,
    host: Host)

  datatype Host = Host(
    targetDirectory: Option<string>,  // from `cargo metadata`; None if it failed
    manifestDirSet: bool,             // `CARGO_MANIFEST_DIR` is set
    manifest: Option<Value>,          // Cargo.toml parsed; None if it could not be read or parsed
    fileSystemOk: bool,               // directory creation, kernel copy and grub.cfg write succeed
    grubExecuted: bool,               // `grub-mkrescue` could be started
    qemuExecuted: bool)               // QEMU could be started

  /** How the command ends: QEMU launched with a kernel and an argument vector
      (the command then returns `Ok(())` whatever QEMU does), an error, or a
      panic. */
  datatype Outcome =
    | Launched(kernel: string, qemuArgs: seq<string>)
    | Failed(error: RunError)
    | Panicked(reason: Panic)

  const RUNNER: string := "runner"
  const HELP: string := "--help"
  const DEPS: string := "deps"
  const ISO_NAME: string := "os.iso"
  const CDROM: string := "-cdrom"

  /** The match on the first argument after the program name. */
  function Dispatch(args: seq<string>): (r: Result<Command, RunError>)
    ensures r == Ok(RunnerCommand) <==> |args| >= 2 && args[1] == RUNNER
    ensures r == Ok(HelpCommand) <==> |args| >= 2 && args[1] == HELP
    ensures r.Err? ==> r.error == (if |args| < 2 then NoOperation else UnrecognizedOption(args[1]))
  {
    if |args| < 2 then Err(NoOperation)
    else if args[1] == RUNNER then Ok(RunnerCommand)
    else if args[1] == HELP then Ok(HelpCommand)
    else Err(UnrecognizedOption(args[1]))
  }

  /** The string `executable` fields of the build-output lines, in line order. */
  function ArtifactExecutables(lines: seq<BuildLine>): (r: seq<string>)
    ensures |r| <= |lines|
    ensures forall k :: 0 <= k < |r| ==> exists i :: 0 <= i < |lines| && lines[i] == Artifact(Some(r[k]))
  {
    if lines == [] then []
    else
      var rest := ArtifactExecutables(lines[1..]);
      if lines[0].Artifact? && lines[0].executable.Some? then [lines[0].executable.value] + rest else rest
  }

  /** The executables of two stretches of output are those of the first
      followed by those of the second: line order is kept. */
  lemma {:induction false} ArtifactExecutablesAppend(a: seq<BuildLine>, b: seq<BuildLine>)
    ensures ArtifactExecutables(a + b) == ArtifactExecutables(a) + ArtifactExecutables(b)
  {
    if a == [] {
      assert a + b == b;
    } else {
      assert (a + b)[1..] == a[1..] + b;
      ArtifactExecutablesAppend(a[1..], b);
    }
  }

  /** A string is among the executables exactly when some line names it;
      lines without a string `executable` contribute nothing. */
  lemma {:induction false} ArtifactExecutablesMembership(lines: seq<BuildLine>, exe: string)
    ensures exe in ArtifactExecutables(lines) <==>
              exists i :: 0 <= i < |lines| && lines[i] == Artifact(Some(exe))
  {
    if lines != [] {
      ArtifactExecutablesMembership(lines[1..], exe);
      if exe in ArtifactExecutables(lines[1..]) {
        var i :| 0 <= i < |lines[1..]| && lines[1..][i] == Artifact(Some(exe));
        assert lines[i + 1] == Artifact(Some(exe));
      }
      if exists i :: 0 <= i < |lines| && lines[i] == Artifact(Some(exe)) {
        var i :| 0 <= i < |lines| && lines[i] == Artifact(Some(exe));
        if i > 0 {
          assert lines[1..][i - 1] == Artifact(Some(exe));
        }
      }
    }
  }

  /** The membership fact for every string at once. */
  lemma ArtifactExecutablesNamed(lines: seq<BuildLine>)
    ensures forall e :: e in ArtifactExecutables(lines) <==>
                        exists i :: 0 <= i < |lines| && lines[i] == Artifact(Some(e))
  {
    forall e ensures e in ArtifactExecutables(lines) <==>
                     exists i :: 0 <= i < |lines| && lines[i] == Artifact(Some(e)) {
      ArtifactExecutablesMembership(lines, e);
    }
  }

  /** The first executable collected is that of the first line naming one:
      every earlier line is not JSON or has no string `executable`. */
  lemma {:induction false} FirstExecutable(lines: seq<BuildLine>)
    requires ArtifactExecutables(lines) != []
    ensures exists i :: 0 <= i < |lines| && lines[i] == Artifact(Some(ArtifactExecutables(lines)[0])) &&
                        forall j :: 0 <= j < i ==> !(lines[j].Artifact? && lines[j].executable.Some?)
  {
    if !(lines[0].Artifact? && lines[0].executable.Some?) {
      FirstExecutable(lines[1..]);
      var i :| 0 <= i < |lines[1..]| && lines[1..][i] == Artifact(Some(ArtifactExecutables(lines[1..])[0])) &&
               forall j :: 0 <= j < i ==> !(lines[1..][j].Artifact? && lines[1..][j].executable.Some?);
      assert lines[i + 1] == Artifact(Some(ArtifactExecutables(lines)[0]));
      forall j | 0 <= j < i + 1 ensures !(lines[j].Artifact? && lines[j].executable.Some?) {
        if j > 0 {
          assert lines[j] == lines[1..][j - 1];
        }
      }
    }
  }

  predicate AllJson(lines: seq<BuildLine>) {
    forall i :: 0 <= i < |lines| ==> lines[i].Artifact?
  }

  /** The loop over the build-output lines: push every string `executable`,
      give up at the first line that is not JSON. */
  method CollectExecutables(lines: seq<BuildLine>) returns (r: Result<seq<string>, RunError>)
    ensures r.Ok? <==> AllJson(lines)
    ensures r.Err? ==> r.error == InvalidJson
    ensures r.Ok? ==> r.value == ArtifactExecutables(lines)
  {
    var executables: seq<string> := [];
    var i := 0;
    while i < |lines|
      invariant 0 <= i <= |lines|
      invariant AllJson(lines[..i])
      invariant executables == ArtifactExecutables(lines[..i])
    {
      assert lines[..i + 1] == lines[..i] + [lines[i]];
      ArtifactExecutablesAppend(lines[..i], [lines[i]]);
      match lines[i]
      case NotJson =>
        return Err(InvalidJson);
      case Artifact(executable) =>
        if executable.Some? {
          executables := executables + [executable.value];
        }
      i := i + 1;
    }
    assert lines[..i] == lines;
    return Ok(executables);
  }

  /** The executables to consider: the second argument alone if there is one,
      otherwise those named by the build output. */
  function SelectExecutables(args: seq<string>, stdout: Option<seq<BuildLine>>): (r: Result<seq<string>, RunError>)
    ensures |args| >= 3 ==> r == Ok([args[2]])
    ensures |args| < 3 ==> (r.Ok? <==> stdout.Some? && AllJson(stdout.value))
    ensures r.Err? ==> r.error == (if stdout.None? then InvalidUtf8 else InvalidJson)
    ensures |args| < 3 && r.Ok? ==>
              forall e :: e in r.value <==> exists i :: 0 <= i < |stdout.value| && stdout.value[i] == Artifact(Some(e))
    ensures |args| < 3 && r.Ok? ==> r.value == ArtifactExecutables(stdout.value)
  {
    if |args| >= 3 then Ok([args[2]])
    else if stdout.None? then Err(InvalidUtf8)
    else if !AllJson(stdout.value) then Err(InvalidJson)
    else
      ArtifactExecutablesNamed(stdout.value);
      Ok(ArtifactExecutables(stdout.value))
  }

  /** Test mode: the kernel's parent directory ends with `deps`. */
  function TestMode(kernel: string): (r: Result<bool, RunError>)
    ensures r.Err? <==> Parse(kernel).parts == []
    ensures r.Err? ==> r.error == NoParent
  {
    match Parent(Parse(kernel))
    case None => Err(NoParent)
    case Some(parent) => Ok(EndsWith(parent, DEPS))
  }

  /** For `dir/name`, test mode is decided by whether `dir` ends with `deps`. */
  lemma TestModeOfJoin(dir: string, name: string)
    requires |dir| > 0 && IsName(name)
    ensures TestMode(dir + [SEPARATOR] + name) == Ok(EndsWith(Parse(dir), DEPS))
  {
    ParentOfJoin(dir, name);
  }

  /** A binary inside a `deps` directory runs in test mode. */
  lemma DepsDirectoryIsTest(dir: string, name: string)
    requires |dir| > 0 && IsName(name)
    ensures TestMode(dir + "/deps/" + name) == Ok(true)
  {
    var depsDir := dir + [SEPARATOR] + DEPS;
    assert dir + "/deps/" + name == depsDir + [SEPARATOR] + name;
    TestModeOfJoin(depsDir, name);
    ParseJoin(dir, DEPS);
  }

  /** The extra QEMU arguments: the test arguments in test mode, the run
      arguments otherwise, nothing when the chosen list is not configured. */
  function ExtraArgs(isTest: bool, config: Config): (r: seq<string>)
    ensures isTest ==> r == config.testArgs.GetOr([])
    ensures !isTest ==> r == config.runArgs.GetOr([])
  {
    if isTest then config.testArgs.GetOr([]) else config.runArgs.GetOr([])
  }

  /** The two lists are never combined: test mode ignores the run arguments
      and run mode ignores the test arguments. */
  lemma ExtraArgsNeverCombined(config: Config, other: Option<seq<string>>)
    ensures ExtraArgs(true, config) == ExtraArgs(true, config.(runArgs := other))
    ensures ExtraArgs(false, config) == ExtraArgs(false, config.(testArgs := other))
    ensures config.testArgs.None? ==> ExtraArgs(true, config) == []
    ensures config.runArgs.None? ==> ExtraArgs(false, config) == []
  {
  }

  /** The QEMU argument vector: `-cdrom`, the ISO path, then the extra
      arguments in order. */
  function QemuArgs(iso: string, extra: seq<string>): (r: seq<string>)
    ensures |r| == |extra| + 2
    ensures r[0] == CDROM && r[1] == iso && r[2..] == extra
  {
    [CDROM, iso] + extra
  }

  /** The ISO image `os.iso` in the target directory. */
  function IsoPath(targetDirectory: string): (r: string)
    ensures |r| >= |targetDirectory| + |ISO_NAME|
    ensures r[..|targetDirectory|] == targetDirectory && r[|r| - |ISO_NAME|..] == ISO_NAME
  {
    Join(targetDirectory, ISO_NAME)
  }

  /** The ISO image is the entry `os.iso` of the target directory. */
  lemma IsoPathInTarget(targetDirectory: string)
    ensures Parse(IsoPath(targetDirectory)) ==
              Path(Parse(targetDirectory).hasRoot, Parse(targetDirectory).parts + [ISO_NAME])
  {
    ParseOfJoin(targetDirectory, ISO_NAME);
  }

  /** The whole command, step by step in the order the source takes them. */
  function RunSpec(env: Environment): Outcome {
    match Dispatch(env.args)
    case Err(e) => Failed(e)
    case Ok(HelpCommand) => Panicked(HelpNotImplemented)
    case Ok(RunnerCommand) =>
      if env.build.NotExecuted? then Failed(BuildNotExecuted)
      else if !env.build.success then Failed(BuildFailed)
      else
        match SelectExecutables(env.args, env.build.stdout)
        case Err(e) => Failed(e)
        case Ok(executables) => KernelStage(env.host, executables)
  }

  /** From the executables on: locate the target directory and the manifest,
      then decide the mode from the first executable. */
  function KernelStage(host: Host, executables: seq<string>): Outcome {
    if host.targetDirectory.None? then Panicked(MetadataFailed)
    else if !host.manifestDirSet then Failed(ManifestDirUnset)
    else if executables == [] then Panicked(NoExecutable)
    else
      match TestMode(executables[0])
      case Err(e) => Failed(e)
      case Ok(isTest) => LaunchStage(host, executables[0], isTest)
  }

  /** From the mode on: read the configuration, build the ISO, launch QEMU. */
  function LaunchStage(host: Host, kernel: string, isTest: bool): Outcome
    requires host.targetDirectory.Some?
  {
    if host.manifest.None? then Failed(ConfigUnreadable)
    else
      match ReadConfigSpec(host.manifest.value)
      case Err(e) => Failed(ConfigRejected(e))
      case Ok(config) =>
        if !host.fileSystemOk then Failed(FileSystem)
        else if !host.grubExecuted then Panicked(GrubNotExecuted)
        else if !host.qemuExecuted then Panicked(QemuNotExecuted)
        else Launched(kernel, QemuArgs(IsoPath(host.targetDirectory.value), ExtraArgs(isTest, config)))
  }

  /** `main`, as a sequence of steps with early returns. */
  method Run(env: Environment) returns (o: Outcome)
    ensures o == RunSpec(env)
  {
    var command := Dispatch(env.args);
    if command.Err? {
      return Failed(command.error);
    }
    if command.value == HelpCommand {
      return Panicked(HelpNotImplemented);
    }
    if env.build.NotExecuted? {
      return Failed(BuildNotExecuted);
    }
    if !env.build.success {
      return Failed(BuildFailed);
    }
    var executables: seq<string> := [];
    if |env.args| >= 3 {
      executables := executables + [env.args[2]];
    } else {
      if env.build.stdout.None? {
        return Failed(InvalidUtf8);
      }
      var collected := CollectExecutables(env.build.stdout.value);
      if collected.Err? {
        return Failed(collected.error);
      }
      executables := collected.value;
    }
    var host := env.host;
    assert RunSpec(env) == KernelStage(host, executables);
    if host.targetDirectory.None? {
      return Panicked(MetadataFailed);
    }
    if !host.manifestDirSet {
      return Failed(ManifestDirUnset);
    }
    if executables == [] {
      return Panicked(NoExecutable);
    }
    var parent := Parent(Parse(executables[0]));
    if parent.None? {
      return Failed(NoParent);
    }
    var isTest := EndsWith(parent.value, DEPS);
    assert KernelStage(host, executables) == LaunchStage(host, executables[0], isTest);
    if host.manifest.None? {
      return Failed(ConfigUnreadable);
    }
    var config := ReadConfig(host.manifest.value);
    if config.Err? {
      return Failed(ConfigRejected(config.error));
    }
    if !host.fileSystemOk {
      return Failed(FileSystem);
    }
    if !host.grubExecuted {
      return Panicked(GrubNotExecuted);
    }
    var extraArgs: seq<string> := [];
    if isTest {
      if config.value.testArgs.Some? {
        extraArgs := extraArgs + config.value.testArgs.value;
      }
    } else if config.value.runArgs.Some? {
      extraArgs := extraArgs + config.value.runArgs.value;
    }
    assert extraArgs == ExtraArgs(isTest, config.value);
    if !host.qemuExecuted {
      return Panicked(QemuNotExecuted);
    }
    var iso := Join(host.targetDirectory.value, ISO_NAME);
    return Launched(executables[0], [CDROM, iso] + extraArgs);
  }
}
