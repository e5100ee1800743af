# grub-bootimage runner, modelled in Dafny

grub-bootimage is a cargo runner for kernels booted by GRUB. When cargo
invokes it as `grub-bootimage runner [kernel]`, it builds the kernel with
`cargo build --message-format json`, picks the kernel executable (the
explicit argument, or the `executable` fields of the build's JSON lines),
decides from the kernel's directory whether this is a test binary, reads
the `[package.metadata.grub-bootimage]` table of Cargo.toml, lays out an ISO
tree, runs `grub-mkrescue` and finally runs `qemu-system-x86_64 -cdrom
<target>/os.iso` followed by the configured run or test arguments.

This project models the two decision procedures of that program and proves
what they promise:

- `config.dfy` (module `BootConfig`): the `Config` record, its defaults, the
  lookup of the `grub-bootimage` table in an already-parsed TOML value, the
  key loop of `read_config` (an imperative method over the table's entries,
  proved equal to a fold `ApplyEntries`) and `parse_config` (a loop over an
  array). Lemmas give the loop its meaning without the loop: it succeeds
  exactly when every entry is accepted, a failure reports the first
  rejected entry, each field is decided by its own key alone (`Settled`),
  and so the result does not depend on the order in which the table is
  walked. Rust's `as u32` and `as i32` casts from TOML's 64-bit integers are
  written out and shown to give the unique 32-bit value congruent to the
  input.
- `runner.dfy` (module `Runner`): `main`, as a method `Run` with the source's
  early returns and the loop over the build-output lines, proved equal to a
  staged specification `RunSpec`. The outside world (command line, the cargo
  build's status and output, `cargo metadata`, the environment, Cargo.toml,
  the file system, whether `grub-mkrescue` and QEMU could be started) is an
  `Environment` input; the result is the QEMU command line, an error, or a
  panic. `runner_properties.dfy` states the runner's promises about `RunSpec`.
- `toml.dfy` (module `Toml`): the TOML value tree, tables as sequences of
  key/value pairs, and `Value::get`.
- `paths.dfy` (module `Paths`): the part of `std::path` the runner relies on,
  for Unix paths: splitting a string into components, `parent`, `ends_with`
  for one component, and `join`.
- `wrappers.dfy`: `Option` and `Result`.

What the program does: a second argument is the only kernel; without
one the kernels are the string `executable` fields of the JSON lines in line
order, and any line that is not JSON fails the run. Test mode holds exactly
when the first kernel's parent directory ends with a `deps` component. QEMU
gets `-cdrom`, the ISO path and then `test-args` in test mode or `run-args`
otherwise (never both, and nothing when the chosen list is absent). The
command then returns success whatever QEMU did.

## Model

| member | source | states |
|---|---|---|
| `BootConfig.DefaultConfig` | src/config.rs:20-27 | the defaults: no run arguments, no test arguments, no success exit code, a 300-second timeout |
| `BootConfig.WrapU32` | src/config.rs:66-68 | `timeout as u32` keeps the value's class modulo 2^32 in the u32 range, so an in-range value is unchanged |
| `BootConfig.WrapU32Unique` | src/config.rs:66-68 | any u32 congruent to the input modulo 2^32 is the one `as u32` gives, so the wrapping is fully determined |
| `BootConfig.WrapI32` | src/config.rs:69-71 | `exit_code as i32` keeps the value's class modulo 2^32 in the i32 range, so an in-range value is unchanged |
| `BootConfig.WrapI32Unique` | src/config.rs:69-71 | any i32 congruent to the input modulo 2^32 is the one `as i32` gives |
| `BootConfig.ParseConfig` | src/config.rs:84-93 | succeeds iff every array element is a string, then returns exactly those strings in the same order; otherwise fails with "config must be a list of strings" |
| `BootConfig.ApplyEntry` | src/config.rs:59-79 | one entry is accepted iff it is a known key with a value of its type (argument lists must hold only strings); a rejected entry gives the non-string-list error or the unexpected-key error; an accepted entry writes its own field (the strings, `as u32` of the timeout, `as i32` of the exit code) and changes no other |
| `BootConfig.ApplyEntries` | src/config.rs:58-81 | the key loop over the entries in order, stopping at the first error; any error it returns is the error of some entry it rejects |
| `BootConfig.ApplyEntriesOkIff` | src/config.rs:58-81 | the key loop succeeds exactly when every entry of the table is accepted |
| `BootConfig.ApplyEntriesFirstError` | src/config.rs:58-81 | a failing key loop reports the error of the first rejected entry in iteration order |
| `BootConfig.ApplyEntriesSettles` | src/config.rs:56-81 | on a table with distinct keys a successful loop sets each field from a lookup of its own key and leaves fields whose key is absent unchanged |
| `BootConfig.TableOrderIndependent` | src/config.rs:58-81 | walking the same distinct-key table in any other order succeeds or fails alike and, on success, gives the same configuration |
| `BootConfig.ReadConfig` | src/config.rs:43-81 | the imperative table lookup and key loop, with the mutable configuration, compute `ReadConfigSpec`: defaults when the entry is missing, an error when it is not a table, the fold over its entries otherwise |
| `BootConfig.Metadata` | src/config.rs:43-46 | the `grub-bootimage` entry is found only through a table `package` holding a table `metadata`; any missing link or non-table gives no entry, and when both tables are present the result is exactly the `grub-bootimage` lookup in `metadata` |
| `BootConfig.ReadConfigAbsent` | src/config.rs:43-53 | without a `package.metadata.grub-bootimage` entry the result is exactly the default configuration |
| `BootConfig.ReadConfigNotTable` | src/config.rs:47-50 | an entry that is not a table is the "config invalid" error carrying that entry |
| `BootConfig.ReadConfigTable` | src/config.rs:56-81 | a present table reads successfully iff every entry is accepted, and then into the per-key settled configuration |
| `BootConfig.ReadConfigTimeout` | src/config.rs:66-68 | a successful read keeps timeout 300 without a `test-timeout` key and stores an in-range `test-timeout` unchanged |
| `BootConfigExamples.FullTable` | src/config.rs:58-81 | a table with run arguments, an exit code and timeout -1 reads as those arguments, 33 and 4294967295 |
| `BootConfigExamples.TimeoutAsStringRejected` | src/config.rs:72-78 | `test-timeout` given as a string is the unexpected-key error naming that key and value |
| `BootConfigExamples.NonStringArgumentRejected` | src/config.rs:60-62 | a run-argument list holding an integer fails the whole read |
| `Toml.Find` | src/config.rs:43-46 | a lookup finds a value iff some entry has the key, and what it finds is an entry of the table |
| `Toml.FindIsMembership` | src/config.rs:43-46 | in a table with distinct keys, finding `v` under `key` is the same as the pair being in the table |
| `Toml.FindIgnoresOrder` | src/config.rs:58 | two distinct-key tables with the same pairs answer every lookup alike |
| `Toml.Get` | src/config.rs:43-46 | `Value::get` finds something only in a table that has the key |
| `Paths.SplitOn` | src/main.rs:38 | splitting a path string gives at least one piece and no piece holds the separator |
| `Paths.SplitJoin` | src/main.rs:38 | splitting loses nothing: gluing the pieces back with separators gives the original string |
| `Paths.SplitAppend` | src/main.rs:38 | a separator between two strings splits exactly there |
| `Paths.NormalAppend` | src/main.rs:38 | dropping empty and `.` pieces distributes over concatenation |
| `Paths.Parse` | src/main.rs:38 | `PathBuf::from`: rooted iff the string starts with `/`; components are non-empty, hold no separator, and only the first may be `.` |
| `Paths.ParseJoin` | src/main.rs:58-61 | parsing `dir/name` gives the components of `dir` followed by `name` |
| `Paths.Parent` | src/main.rs:58-60 | `parent` is absent exactly for a path with no component besides the root, and otherwise drops only the last component |
| `Paths.EndsWith` | src/main.rs:61 | `ends_with(name)` for one component holds iff the path has a parent and that parent followed by `name` is the path |
| `Paths.ParentOfJoin` | src/main.rs:58-60 | the parent of `dir/name` is `dir` |
| `Paths.Join` | src/main.rs:67 | `join(name)` keeps the base as a prefix and `name` as a suffix, with one separator between them unless the base is empty or already ends with one |
| `Paths.ParseOfJoin` | src/main.rs:67 | `join(name)` adds `name` as the last component, whether or not the base ends in a separator or is empty |
| `Paths.TrailingSeparator` | src/main.rs:67 | a trailing separator does not change a path's components |
| `Runner.Dispatch` | src/main.rs:14-23 | only `runner` continues and `--help` is the help command; no argument is "no operation specified", anything else is "unrecognized option" naming it |
| `Runner.ArtifactExecutables` | src/main.rs:45-47 | no more executables than lines, and every executable collected is the string `executable` of some line |
| `Runner.ArtifactExecutablesAppend` | src/main.rs:40-48 | the executables of concatenated output are those of each part in order, so line order is kept |
| `Runner.ArtifactExecutablesMembership` | src/main.rs:45-47 | a string is among the executables iff some line's `executable` is that string; other lines contribute nothing |
| `Runner.FirstExecutable` | src/main.rs:45-58 | the first executable collected, which is the kernel launched, is the `executable` of the first line that has a string one; no earlier line names an executable |
| `Runner.CollectExecutables` | src/main.rs:40-48 | the loop over build-output lines succeeds iff every line is JSON, failing with "Invalid JSON" otherwise, and then returns the string `executable` fields in line order |
| `Runner.SelectExecutables` | src/main.rs:37-49 | a second argument is the only executable; otherwise selection succeeds iff the output is UTF-8 and every line is JSON (else "Invalid UTF-8" or "Invalid JSON"), and the selection is then exactly the executables of the output in line order (so a string is selected iff some line names it) |
| `Runner.TestMode` | src/main.rs:58-61 | fails with "kernel binary has no parent" exactly for a kernel path with no component besides the root (`/` or the empty path) |
| `Runner.TestModeOfJoin` | src/main.rs:58-61 | for a kernel `dir/name`, test mode holds iff `dir` ends with a `deps` component |
| `Runner.DepsDirectoryIsTest` | src/main.rs:58-61 | a kernel at `dir/deps/name` runs in test mode |
| `Runner.ExtraArgsNeverCombined` | src/main.rs:85-92 | test mode ignores `run-args` and run mode ignores `test-args`; an absent list contributes nothing |
| `Runner.ExtraArgs` | src/main.rs:85-92 | the test arguments in test mode and the run arguments otherwise, each empty when not configured |
| `Runner.QemuArgs` | src/main.rs:94-96 | the QEMU argument vector is `-cdrom`, the ISO path, then the extra arguments in order |
| `Runner.IsoPath` | src/main.rs:67 | the ISO path starts with the target directory and ends with `os.iso` |
| `Runner.IsoPathInTarget` | src/main.rs:67 | the ISO image is the entry `os.iso` of the target directory |
| `Runner.Run` | src/main.rs:11-101 | `main` with its early returns, the executable loop and the extra-argument extension computes `RunSpec` |
| `RunnerProperties.RunDispatch` | src/main.rs:14-23 | no argument fails with "no operation", an unknown first argument fails naming it, `--help` panics, and only `runner` can launch QEMU |
| `RunnerProperties.RunBuildFailed` | src/main.rs:32-34 | an unsuccessful build fails with "kernel build failed" whatever it printed, before any executable is chosen |
| `RunnerProperties.RunExplicitKernel` | src/main.rs:37-38 | with a second argument the build output does not affect the outcome and a launched kernel is that argument |
| `RunnerProperties.RunKernelFromBuild` | src/main.rs:39-48 | without a second argument non-UTF-8 output fails, a non-JSON line fails, output naming no executable panics, and a launched kernel is the first executable named |
| `RunnerProperties.RunNoParent` | src/main.rs:58-60 | a first executable without a parent, whether given as an argument or named by the build, fails with "kernel binary has no parent" |
| `RunnerProperties.RunLaunchArgs` | src/main.rs:85-100 | a launch runs QEMU with `-cdrom`, the target's ISO path, then `test-args` if the kernel's parent ends with `deps` and `run-args` otherwise |
| `RunnerProperties.RunTestBinaryGetsTestArgs` | src/main.rs:58-92 | a kernel under a `deps` directory is launched with exactly the configured test arguments |

## Left out

- Reading Cargo.toml and parsing TOML (src/config.rs:31-41): file I/O and the `toml` crate. The parsed value is an input; a failure to open, read or parse is one outcome, `ConfigUnreadable`.
- Parsing JSON and decoding the build output as UTF-8 (src/main.rs:40-44): library calls. Each line is an input `BuildLine` (not JSON, or the string value of `executable` if there is one), and the whole output is absent when it is not UTF-8.
- Spawning `cargo build`, `cargo metadata`, `grub-mkrescue` and QEMU, and reading `CARGO` and `CARGO_MANIFEST_DIR`: process and environment I/O. Their observable results are inputs. The name of the cargo binary affects nothing the model observes.
- The file-system steps (src/main.rs:66-78): creating the ISO tree, copying the kernel and writing a fixed grub.cfg. Only whether they all succeed is modelled.
- Command-line arguments that are not valid Unicode (src/main.rs:12-14, src/main.rs:37): `env::args()` panics on them while iterating. `Environment.args` holds only strings, so the model has no such argument and no panic for it.
- The payload of TOML floats and datetimes: `Float` and `Datetime` carry none. So the `UnexpectedKey` and `ConfigInvalid` errors do not keep the float or datetime value that src/config.rs:50 and src/config.rs:73-77 format into the message; only its kind is kept. Error messages are not modelled as text either.
- `--help` reaches `todo!()` (src/main.rs:16). It is modelled only as the panic `HelpNotImplemented`.
- The exit status of `grub-mkrescue` and QEMU: the source never reads them. `Launched` carries no exit status, since the command returns success whatever it is.
- `Paths.Parse`: handles Unix separators only. Windows prefixes and `\` separators are not modelled.
- The `to_str().unwrap()` calls on the ISO and sysroot paths (src/main.rs:81, src/main.rs:95) cannot panic in the model, because paths are modelled as strings.
- `Config.test_timeout` and `Config.test_success_exit_code` are read and stored but never used (src/main.rs:63-100). The model reads and stores them the same way.

### No test supervision

The code has no timeout or exit-code supervision. It runs QEMU once with a blocking `.output()` call (src/main.rs:94-98), which captures QEMU's output rather than passing it through. It ignores QEMU's exit status and returns `Ok(())`. It never reads `test_timeout` or `test_success_exit_code`, and the latter defaults to absent. The model therefore has no timeout or exit-code state machine.
