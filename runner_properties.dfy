/** Properties of the whole command. */
module RunnerProperties {
  import opened Wrappers
  import opened Toml
  import opened BootConfig
  import opened Paths
  import opened Runner

  /** Only `runner` goes on: no argument and any argument other than
      `runner` or `--help` are errors, and `--help` panics. */
  lemma RunDispatch(env: Environment)
    ensures |env.args| < 2 ==> RunSpec(env) == Failed(NoOperation)
    ensures |env.args| >= 2 && env.args[1] != RUNNER && env.args[1] != HELP ==>
              RunSpec(env) == Failed(UnrecognizedOption(env.args[1]))
    ensures |env.args| >= 2 && env.args[1] == HELP ==> RunSpec(env) == Panicked(HelpNotImplemented)
    ensures RunSpec(env).Launched? ==> |env.args| >= 2 && env.args[1] == RUNNER
  {
  }

  /** A failed build ends the command before the executables are looked at,
      whatever the build printed. */
  lemma RunBuildFailed(env: Environment, stdout: Option<seq<BuildLine>>)
    requires |env.args| >= 2 && env.args[1] == RUNNER
    ensures RunSpec(env.(build := Exited(false, stdout))) == Failed(BuildFailed)
  {
  }

  /** With a second argument, that argument is the kernel and the build output
      is not consulted. */
  lemma RunExplicitKernel(env: Environment, stdout1: Option<seq<BuildLine>>, stdout2: Option<seq<BuildLine>>)
    requires |env.args| >= 3
    ensures RunSpec(env.(build := Exited(true, stdout1))) == RunSpec(env.(build := Exited(true, stdout2)))
    ensures RunSpec(env).Launched? ==> RunSpec(env).kernel == env.args[2]
  {
  }

  /** Without a second argument, the kernel is the first executable the build
      output names; output that is not UTF-8, or a line that is not JSON,
      fails the command, and output naming no executable panics. */
  lemma RunKernelFromBuild(env: Environment)
    requires |env.args| == 2 && env.args[1] == RUNNER
    requires env.build.Exited? && env.build.success
    ensures env.build.stdout.None? ==> RunSpec(env) == Failed(InvalidUtf8)
    ensures env.build.stdout.Some? && !AllJson(env.build.stdout.value) ==> RunSpec(env) == Failed(InvalidJson)
    ensures (&& env.build.stdout.Some? && AllJson(env.build.stdout.value)
             && ArtifactExecutables(env.build.stdout.value) == []
             && env.host.targetDirectory.Some? && env.host.manifestDirSet) ==> RunSpec(env) == Panicked(NoExecutable)
    ensures RunSpec(env).Launched? ==>
              && env.build.stdout.Some? && AllJson(env.build.stdout.value)
              && |ArtifactExecutables(env.build.stdout.value)| > 0
              && RunSpec(env).kernel == ArtifactExecutables(env.build.stdout.value)[0]
  {
  }

  /** A kernel path with no parent (the root, or the empty path) is an error,
      whether the kernel was given as an argument or named by the build. */
  lemma RunNoParent(env: Environment, executables: seq<string>)
    requires |env.args| >= 2 && env.args[1] == RUNNER
    requires env.build.Exited? && env.build.success
    requires SelectExecutables(env.args, env.build.stdout) == Ok(executables)
    requires executables != [] && Parse(executables[0]).parts == []
    requires env.host.targetDirectory.Some? && env.host.manifestDirSet
    ensures RunSpec(env) == Failed(NoParent)
  {
  }

  /** A launch runs QEMU with `-cdrom`, the ISO image in the target directory,
      and then the test arguments if the kernel's parent directory ends with
      `deps` and the run arguments otherwise, never both. */
  lemma RunLaunchArgs(env: Environment)
    requires RunSpec(env).Launched?
    ensures var o := RunSpec(env);
      && env.host.targetDirectory.Some? && env.host.manifest.Some?
      && ReadConfigSpec(env.host.manifest.value).Ok?
      && Parent(Parse(o.kernel)).Some?
      && |o.qemuArgs| >= 2
      && o.qemuArgs[0] == CDROM
      && o.qemuArgs[1] == IsoPath(env.host.targetDirectory.value)
      && var config := ReadConfigSpec(env.host.manifest.value).value;
         o.qemuArgs[2..] ==
           if EndsWith(Parent(Parse(o.kernel)).value, DEPS) then config.testArgs.GetOr([])
           else config.runArgs.GetOr([])
  {
  }

  /** A test binary built under `.../deps/` gets the configured test arguments. */
  lemma RunTestBinaryGetsTestArgs(env: Environment, dir: string, name: string)
    requires |dir| > 0 && IsName(name)
    requires RunSpec(env).Launched? && RunSpec(env).kernel == dir + "/deps/" + name
    ensures env.host.manifest.Some? && ReadConfigSpec(env.host.manifest.value).Ok?
    ensures RunSpec(env).qemuArgs[2..] == ReadConfigSpec(env.host.manifest.value).value.testArgs.GetOr([])
  {
    RunLaunchArgs(env);
    DepsDirectoryIsTest(dir, name);
  }
}
