# greenboot: diagnostics engine, command layer and boot mount guard

greenboot is a boot-health watchdog. At each boot it runs the health-check
scripts that are installed under two roots, `/usr/lib/greenboot` and
`/etc/greenboot`. The `required.d` tier is fail-fast and the `wanted.d` tier
is advisory. If the checks pass, greenboot runs the `green.d` hooks and marks
the boot good. If they fail, it runs the `red.d` hooks, marks the boot bad,
arms the GRUB boot counter and reboots. A separate `rollback` subcommand
rolls back to the previous deployment.

This project models three pieces of that program in Dafny:

- `greenboot.dfy` (module `Greenboot`) covers the tier runner `run_scripts`,
  `run_diagnostics`, `run_red` and `run_green`. They are imperative methods
  that keep the source's loops, `continue` and `break`. Each is proved equal
  to a recursive specification function. The properties are proved as lemmas
  about those functions: fail-fast, skipped names never run, wanted errors
  never decide the verdict, and the missing-disabled set difference.
- `orchestrator.dfy` (module `Orchestrator`) covers src/main.rs:
  - `LogLevel::to_log`;
  - the configuration fallback of `get_config`;
  - the journal decision of `check_previous_rollback`;
  - `generate_motd_message`;
  - the subcommands `health_check` and `trigger_rollback`. Each is a method
    that returns the ordered steps it attempted and its final result.
- `mount.dfy` (module `Mount`) covers `is_boot_rw` as a first-match function
  over the text of the mount table. It also has a `MountGuard` class with the
  process-wide `BOOT_WAS_RO` flag and the list of `mount(2)` requests issued,
  updated in place by `remount_boot_ro` and `remount_boot_rw`.
- `text.dfy` (module `Text`) covers the pieces of Rust's `str` that the core
  relies on: `char::is_whitespace`, `contains`, `trim`, `split_whitespace`
  and `lines`.
- `results.dfy` (module `Results`) defines `Option` and `Result`.

The file system, child processes, the journal, the configuration file and
the system calls are oracles, passed in as parameters:

- A directory is a `Listing`: a glob pattern error, or the items glob yields
  in order. Each item carries its name, its extension and the metadata
  `fs::metadata` reports.
- Running a command is a function `exec` from the command started (through
  `bash -C`, or directly) to its outcome.
- The collaborators whose bodies are not part of this model are a
  `Collaborators` value. They are `handle_motd`, `set_boot_status`,
  `set_boot_counter`, `handle_reboot`, `handle_rollback` and
  `unset_boot_counter`, and the value gives the result each call returns.
- The mount table is its text, or `None` when it cannot be read. A remount
  call is given the result `mount(2)` returns.

## Model

| member | source | states |
|---|---|---|
| Greenboot.HasExecuteBit | src/lib/greenboot.rs:119 | The execute test over the other, group and owner bits. Its partner Greenboot.ExecuteBitMask shows it equals the single mask `0o111`. |
| Greenboot.ExecuteBitMask | src/lib/greenboot.rs:119 | Testing the three execute bits one by one is the same as testing `mode & 0o111`. |
| Greenboot.IsCandidate | src/lib/greenboot.rs:114-123 | The glob filter: readable metadata, a regular file, and extension `sh` or an execute bit. Greenboot.Candidates states what it keeps. |
| Greenboot.Candidates | src/lib/greenboot.rs:112-124 | The entries kept are exactly the readable items that are regular files with extension `sh` or an execute bit in `mode & 0o111`. Items whose metadata cannot be read are dropped. No entry is invented. |
| Greenboot.CandidatesAppend | src/lib/greenboot.rs:112-124 | The filter keeps the enumeration order: the candidates of two consecutive parts of a listing are those of the first part followed by those of the second. |
| Greenboot.CandidatesOne | src/lib/greenboot.rs:112-124 | A single item is kept exactly when it is readable and a candidate. With CandidatesAppend this fixes the candidates as the ordered filter of the items. |
| Greenboot.PatternErrorRunsNothing | src/lib/greenboot.rs:127-130 | A glob pattern error gives exactly one error, nothing skipped and nothing started. |
| Greenboot.EntryStep | src/lib/greenboot.rs:133-184 | One iteration of the loop: a nameless entry is passed over, a disabled name is skipped, anything else is started, and a failure is recorded and ends a required run. Its properties are stated by Greenboot.EntryStepShape and Greenboot.EntryStepViews. |
| Greenboot.EntryStepShape | src/lib/greenboot.rs:133-184 | One entry starts at most one command and ends the run exactly when it records an error in the required tier. An error comes with exactly one started command, which failed, and no skip. A started command with no error succeeded. |
| Greenboot.EntryStepViews | src/lib/greenboot.rs:133-184 | One entry contributes exactly its part of the runnable commands and of the skipped names, and its errors are the failures of what it started. |
| Greenboot.RunEntries | src/lib/greenboot.rs:133-184 | The loop over the candidates as a recursive specification, stopping after the first error in the required tier. Greenboot.RunShape, Greenboot.RequiredFailFast and Greenboot.OtherTiersRunEverything state its properties against Runnable, SkippedNames and Failures. |
| Greenboot.Run | src/lib/greenboot.rs:104-187 | `run_scripts` as a function: a glob pattern error is the single error, otherwise the loop over the candidates. Greenboot.RunScripts is proved equal to it. |
| Greenboot.RunScripts | src/lib/greenboot.rs:104-187 | The loop with `continue`/`break` returns the errors and skipped names of the recursive run specification. Its ghost trace of started commands equals the specification's trace. |
| Greenboot.RunnableEntries | src/lib/greenboot.rs:133-156 | Each runnable command belongs to an entry of the listing that has a UTF-8 name that is not disabled. It is started through `bash -C` exactly when the extension is `sh`. |
| Greenboot.SkippedNamesPresent | src/lib/greenboot.rs:141-147 | Each recorded skip is a disabled name of some entry. |
| Greenboot.FailuresEmptyIff | src/lib/greenboot.rs:158-183 | The failure list of a sequence of commands is empty exactly when every command succeeds. |
| Greenboot.FailuresAppend | src/lib/greenboot.rs:158-183 | Failures of consecutive commands concatenate, in order. |
| Greenboot.RunShape | src/lib/greenboot.rs:133-184 | A run starts a prefix of the runnable commands and records a prefix of the disabled names. Its errors are exactly the failures among the started commands, in order. |
| Greenboot.NothingDisabledRuns | src/lib/greenboot.rs:135-147 | No started command has a disabled name or a non-UTF-8 name. Every skip is a disabled name that was present. |
| Greenboot.OtherTiersRunEverything | src/lib/greenboot.rs:158-183 | For any tier other than `required`: everything runnable is started and every disabled entry is skipped. The errors are the failures of all runnable entries, in enumeration order. |
| Greenboot.RequiredFailsLast | src/lib/greenboot.rs:173-181 | In the required tier, every started command but the last succeeded. If an error is recorded, the last started command failed. |
| Greenboot.RequiredPassRunsAll | src/lib/greenboot.rs:133-184 | A required run with no error started every runnable entry and skipped every disabled one. |
| Greenboot.FailuresOfSucceededPrefix | src/lib/greenboot.rs:158-183 | If all commands but the last succeed, the failures are at most the last one's. |
| Greenboot.RequiredFailFast | src/lib/greenboot.rs:158-184 | The required tier records at most one error. It records one exactly when some runnable entry fails, and that error belongs to the last command started, so nothing after the first failure runs. With no error it ran and skipped everything. |
| Greenboot.RunDiagnostics | src/lib/greenboot.rs:17-71 | The two loops return the verdict and the started commands of the recursive diagnostics specification. |
| Greenboot.RequiredChecks | src/lib/greenboot.rs:25-40 | The required loop over the roots as a recursive specification, stopping at the first root whose run errs. Greenboot.RequiredChecksShape states its properties. |
| Greenboot.WantedChecks | src/lib/greenboot.rs:47-56 | The wanted loop over every root, collecting skips and started commands. Greenboot.WantedChecksSkips states its properties. |
| Greenboot.Diagnostics | src/lib/greenboot.rs:17-71 | `run_diagnostics` as a function of the roots. Greenboot.DiagnosticsVerdict states its verdict and Greenboot.RequiredFailureStopsDiagnostics its trace. |
| Greenboot.OnDiskSplits | src/lib/greenboot.rs:33-50 | The disabled names found on disk are those of the required directories together with those of the wanted listings. |
| Greenboot.PassingRequiredSkips | src/lib/greenboot.rs:32-33 | A passing required run skips exactly the disabled names its listing holds. |
| Greenboot.RequiredChecksShape | src/lib/greenboot.rs:25-40 | The required phase fails exactly when some root's required run errs. It finds a directory exactly when some root has one. If it passes, it skipped the disabled names of all required directories. |
| Greenboot.WantedChecksSkips | src/lib/greenboot.rs:47-56 | The wanted phase skips exactly the disabled names of the wanted listings, whatever its scripts return. |
| Greenboot.DiagnosticsVerdict | src/lib/greenboot.rs:17-71 | The call fails with "required health-check failed, skipping remaining scripts" exactly when some required run errs. It fails with "cannot find any required.d folder" exactly when no root has `required.d`. Otherwise the result is exactly the disabled names minus those skipped anywhere, and wanted outcomes never decide it. |
| Greenboot.RequiredFailureStopsDiagnostics | src/lib/greenboot.rs:35-39 | When root k is the first whose required run errs, the call fails. The commands started are those of the required runs of the earlier roots that have a required directory, followed by root k's. No later root and no wanted script runs. |
| Greenboot.ListingSkipsAreListed | src/lib/greenboot.rs:141-147 | A name skipped from a listing is the name of one of its items. |
| Greenboot.OnDiskIsListed | src/lib/greenboot.rs:47-62 | A disabled name found on disk is listed in some root's required or wanted directory. |
| Greenboot.AbsentDisabledNameIsReported | src/lib/greenboot.rs:58-70 | A disabled name that is absent from every required and wanted listing is returned on success. The result holds nothing outside the disabled list. |
| Greenboot.DisabledFailuresPass | src/lib/greenboot.rs:32-44 | If some root has `required.d` and every failing required entry is disabled, diagnostics succeed. |
| Greenboot.RunHooks | src/lib/greenboot.rs:74-97 | The shared red/green loop returns the errors of every directory's run, concatenated in root order. Nothing is skipped. |
| Greenboot.HookRun | src/lib/greenboot.rs:74-97 | The red/green loop as a recursive specification. Greenboot.HooksRunEverything states its properties. |
| Greenboot.RunRed | src/lib/greenboot.rs:74-84 | `run_red` runs every root's `red.d`, one listing per root in root order, with no disabled list. |
| Greenboot.RunGreen | src/lib/greenboot.rs:87-97 | `run_green` runs every root's `green.d`, one listing per root in root order, with no disabled list. |
| Greenboot.HooksRunEverything | src/lib/greenboot.rs:74-97 | Hook tiers never stop early. Each directory contributes its pattern error or the failures of all its runnable entries, and every started command has a UTF-8 name. |
| Orchestrator.ToLog | src/main.rs:83-92 | Each level maps to the filter of the same name, and the order is reversed: the first-declared level admits the most. |
| Orchestrator.ToLogBijective | src/main.rs:83-92 | `to_log` is one-to-one and onto the six filters. |
| Orchestrator.ToLogReversesOrder | src/main.rs:71-92 | A level that comes later in the derived order gives a filter that admits no more. |
| Orchestrator.SetDefault | src/main.rs:34-36 | The default configuration allows three boot attempts. |
| Orchestrator.MaxRebootFor | src/main.rs:38-68 | The attempt count is the configured integer when it fits in `u16`, and the default otherwise. |
| Orchestrator.GetConfig | src/main.rs:38-68 | `max_reboot` is the configured integer when the file builds and the value fits in `u16`. In every other case it is the default 3. The result is the count Orchestrator.MaxRebootFor gives, which `health_check` passes to `set_boot_counter`. |
| Orchestrator.CheckPreviousRollback | src/main.rs:107-142 | The check gives Ok(true) exactly when journalctl succeeded and its UTF-8 output contains "Rollback successful". It errs exactly when the command cannot start or its successful output is not UTF-8. A failed command gives Ok(false). |
| Orchestrator.MarkerOutputNotBlank | src/main.rs:132-138 | Output holding "Rollback successful" is never blank after `trim()`, so the emptiness test never hides a logged rollback. |
| Orchestrator.PreviousRollback | src/main.rs:162-178 | Inside `health_check`, an error from the check counts as no rollback. |
| Orchestrator.GenerateMotdMessage | src/main.rs:146-153 | The result is always Ok. It is the base message, preceded by the fallback banner exactly when a previous rollback was detected. |
| Orchestrator.HealthCheck | src/main.rs:157-225 | A failed "in progress" MOTD aborts before diagnostics. On the pass path the steps are green hooks, GREEN MOTD and `set_boot_status(true)`, and the result is that call's. On the fail path, RED MOTD, red hooks, `set_boot_status(false)`, `set_boot_counter(max_reboot)` and `handle_reboot(false)` are all attempted, and the result is always "greenboot healthcheck failed". |
| Orchestrator.TriggerRollback | src/main.rs:228-239 | A failed rollback returns its error with ", Rollback is not initiated" appended, and nothing else is attempted. A failed counter clear is returned with no reboot. Otherwise the immediate reboot's result is returned. |
| Mount.IsBootRw | src/handler/mount.rs:18-29 | An unreadable table is `MountInfoError`, and every error is `MountInfoError`. The verdict is that of the first `/boot` line, as Mount.FirstBootLineDecides and Mount.NoBootLineIsError state. |
| Mount.BootRwInLines | src/handler/mount.rs:21-28 | The scan over the lines of the table only ever fails with `MountInfoError`. |
| Mount.FirstBootLineDecides | src/handler/mount.rs:21-26 | The first line whose second field is `/boot` decides the verdict. |
| Mount.NoBootLineIsError | src/handler/mount.rs:21-28 | The scan errs exactly when no line is a `/boot` line, and the error is `MountInfoError`. |
| Mount.LaterLinesIgnored | src/handler/mount.rs:21-26 | Lines after a `/boot` line never change the verdict. |
| Mount.LaterTextIgnored | src/handler/mount.rs:19-26 | Text appended after a complete `/boot` line never changes the verdict. |
| Mount.ShortBootLineIsNotRw | src/handler/mount.rs:24-25 | A first `/boot` line with fewer than four fields reads as not read-write. |
| Mount.RoAnywhereIsNotRw | src/handler/mount.rs:25 | Options holding "ro" anywhere read as not read-write. |
| Mount.RemountRoOptionReadsReadOnly | src/handler/mount.rs:25 | `rw,errors=remount-ro` reads as not read-write. |
| Mount.TableLine | src/handler/mount.rs:21-22 | A line of space-joined tokens splits back into those tokens and, terminated, is one line of the table. |
| Mount.BootLineAfterOther | src/handler/mount.rs:18-29 | For a table of a non-`/boot` line followed by a `/boot` line with four fields, the verdict is the substring test on that line's options. |
| Mount.MountGuard.constructor | src/handler/mount.rs:8 | The flag starts false and no remount has been requested. |
| Mount.MountGuard.RemountBootRo | src/handler/mount.rs:31-54 | An error from `is_boot_rw` is returned with no request and no flag change. Already read-only returns Ok with no request. Otherwise a read-only remount is requested: success sets the flag and failure returns `RemountFailed` with the flag unchanged. The flag never goes back to false. |
| Mount.MountGuard.RemountBootRw | src/handler/mount.rs:56-79 | The mirror image with a bind remount. Already read-write returns Ok with no request, and a successful remount also sets the flag to true. |
| Text.IsWhitespace | src/handler/mount.rs:22 | The characters of Unicode White_Space, which `char::is_whitespace` tests. |
| Text.Contains | src/handler/mount.rs:25 | `str::contains` as a left-to-right scan. Text.ContainsIff states its meaning. |
| Text.ContainsIff | src/handler/mount.rs:25 | `contains` finds the substring exactly when it occurs at some index. |
| Text.ContainsNonBlank | src/main.rs:132-138 | A string that contains a non-blank string is not blank. |
| Text.Trim | src/main.rs:132 | `str::trim`: leading and trailing whitespace dropped. Text.TrimStartBlank, Text.TrimEndEmpty and Text.TrimEmptyIffBlank state its properties. |
| Text.TrimStartBlank | src/main.rs:132 | Dropping leading whitespace keeps a string blank exactly when it was blank, and leaves a non-whitespace first character. |
| Text.TrimEndEmpty | src/main.rs:132 | Dropping trailing whitespace gives the empty string exactly when the string is blank. |
| Text.TrimEmptyIffBlank | src/main.rs:132 | `trim()` is empty exactly when the string is all whitespace. |
| Text.TokenLength | src/handler/mount.rs:22 | The leading run ends at whitespace or at the end of the string. |
| Text.TokenLengthRun | src/handler/mount.rs:22 | No character of the leading run is whitespace. |
| Text.SplitWhitespace | src/handler/mount.rs:22 | Every field of `split_whitespace` is non-empty and free of whitespace. |
| Text.SplitAfterToken | src/handler/mount.rs:22 | A token followed by whitespace or by nothing is split off as the first field. |
| Text.SplitJoin | src/handler/mount.rs:22 | Splitting space-joined tokens returns those tokens. |
| Text.JoinSpacesBlankFree | src/handler/mount.rs:22 | Tokens joined by spaces hold no whitespace but the separating spaces, so such a line holds no line terminator. |
| Text.IndexOfNewline | src/handler/mount.rs:21 | The result is the index of a newline, or the length of the string. |
| Text.IndexOfNewlineFirst | src/handler/mount.rs:21 | No newline comes before the index found. |
| Text.IndexOfNewlineOfLine | src/handler/mount.rs:21 | A line free of newlines, followed by one, has its newline found at its end. |
| Text.Lines | src/handler/mount.rs:21 | `str::lines`: split after each newline, drop the terminator and a carriage return before it, keep a last unterminated line. Text.LinesAppend and Text.LinesOfLine state its properties. |
| Text.AfterNewlineComplete | src/handler/mount.rs:21 | Text of complete lines holds a newline, and what follows its first newline is again empty or ends in a newline. |
| Text.LinesAppend | src/handler/mount.rs:21 | Text made of complete lines splits independently of what follows it. |
| Text.LinesOfLine | src/handler/mount.rs:21 | One terminated line is one line, with a trailing `\r` dropped. |

## Left out

- Process spawning, glob expansion, `fs::metadata` and `journalctl` are not modelled. They are oracles: the listings, the `exec` function and the `JournalRun` value.
- The body of each collaborator that main.rs calls is not part of this model. Those collaborators are `handle_motd`, `set_boot_status`, `set_boot_counter`, `handle_reboot`, `handle_rollback` and `unset_boot_counter`. Only the result each returns is modelled.
- Reading `/proc/mounts` and the `mount(2)` system call are inputs. So the table is taken per call and is not a field of `MountGuard`, which records the requests it issued instead of a count.
- `AtomicBool` memory ordering is not modelled, because the program is single-threaded. `BOOT_WAS_RO` is a plain field.
- Logging, the `clap` command line and `main` are left out. `main` only dispatches to the two subcommands after choosing a log filter.
- INI parsing by the `config` crate is left out. The model takes what the lookup of `GREENBOOT_MAX_BOOT_ATTEMPTS` gives: a build error, a key error, or an integer. `get_int`'s own 64-bit range check is part of the key error.
- The error text of failed scripts is kept as its parts: tier, path, stdout and stderr. The model does not format it with lossy UTF-8 conversion.
- Greenboot.RunDiagnostics returns the missing disabled names as a `set`. The source builds an unordered `HashSet` difference and collects it into a `Vec`, whose order is unspecified.
- The two install roots are a sequence of any length. All lemmas hold for the two-element case.
- A missing directory is modelled as a listing with no items, which is what globbing it gives.
- main.rs calls `run_diagnostics()` with no argument and matches its result against `Ok(())`. The library's function takes the disabled list and returns the missing names. Orchestrator.HealthCheck uses only the verdict of a run with an empty disabled list, and the two signatures are not reconciled.
- The `?` on `generate_motd_message` in `health_check` is not modelled as a branch, because Orchestrator.GenerateMotdMessage always returns Ok.
- The error values of `anyhow` are strings. Their context chains and backtraces are not modelled.
- The test fixtures of src/lib/greenboot.rs (lines 189-454) are not modelled. The properties they check are stated as lemmas above.
