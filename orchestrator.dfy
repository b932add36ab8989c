/**
 * The command layer of src/main.rs: the log-level mapping, the configuration
 * fallback, the previous-rollback check on the journal, the MOTD text, and
 * the two subcommands `health-check` and `rollback` as ordered step
 * sequences over their collaborators.
 *
 * The collaborators whose bodies live elsewhere (`handle_motd`,
 * `set_boot_status`, `set_boot_counter`, `handle_reboot`, `handle_rollback`,
 * `unset_boot_counter`) are given as the result each call would return; the
 * journal command and the configuration file are given as their outcome.
 * Each subcommand returns the steps it attempted, in order.
 */
module Orchestrator {
  import opened Results
  import opened Text
  import opened Greenboot

  // -------------------------------------------------------------- log level

  /** The `--log-level` values, in their declaration (and `Ord`) order. */
  datatype LogLevel = Trace | Debug | Info | Warn | Error | Off

  /** The log crate's `LevelFilter`, ordered `Off < Error < Warn < Info < Debug < Trace`. */
  datatype LevelFilter = Off | Error | Warn | Info | Debug | Trace

  /** Position of a level in the derived order of `LogLevel`. */
  function LevelRank(l: LogLevel): nat {
    match l
    case Trace => 0
    case Debug => 1
    case Info => 2
    case Warn => 3
    case Error => 4
    case Off => 5
  }

  /** Position of a filter in the log crate's order (the verbosity it admits). */
  function FilterRank(f: LevelFilter): nat {
    match f
    case Off => 0
    case Error => 1
    case Warn => 2
    case Info => 3
    case Debug => 4
    case Trace => 5
  }

  /**
   * `LogLevel::to_log`: each level to the filter of the same name, which
   * reverses the order: the first-declared level admits the most.
   */
  function ToLog(l: LogLevel): (f: LevelFilter)
    ensures FilterRank(f) == 5 - LevelRank(l)
  {
    match l
    case Trace => LevelFilter.Trace
    case Debug => LevelFilter.Debug
    case Info => LevelFilter.Info
    case Warn => LevelFilter.Warn
    case Error => LevelFilter.Error
    case Off => LevelFilter.Off
  }

  /** The level a filter comes from. */
  function FromLog(f: LevelFilter): LogLevel {
    match f
    case Trace => LogLevel.Trace
    case Debug => LogLevel.Debug
    case Info => LogLevel.Info
    case Warn => LogLevel.Warn
    case Error => LogLevel.Error
    case Off => LogLevel.Off
  }

  /** `to_log` is a bijection between the six levels and the six filters. */
  lemma {:induction false} ToLogBijective(a: LogLevel, b: LogLevel, f: LevelFilter)
    ensures ToLog(a) == ToLog(b) <==> a == b
    ensures ToLog(FromLog(f)) == f
    ensures FromLog(ToLog(a)) == a
  {
  }

  /** A level declared later gives a filter that admits less. */
  lemma {:induction false} ToLogReversesOrder(a: LogLevel, b: LogLevel)
    ensures LevelRank(a) <= LevelRank(b) <==> FilterRank(ToLog(b)) <= FilterRank(ToLog(a))
  {
  }

  // ---------------------------------------------------------- configuration

  /** Rust's `u16`. */
  newtype u16 = x: int | 0 <= x < 0x1_0000

  datatype GreenbootConfig = GreenbootConfig(maxReboot: u16)

  /** `GreenbootConfig::set_default`: three boot attempts. */
  function SetDefault(): (c: GreenbootConfig)
    ensures c.maxReboot == 3
  {
    GreenbootConfig(3)
  }

  /**
   * What reading `GREENBOOT_MAX_BOOT_ATTEMPTS` from the INI file gives: the
   * file does not build, the key is missing or not an integer, or an integer.
   */
  datatype IniLookup = BuildFailed(detail: string) | KeyError(detail: string) | IntValue(v: int)

  /** The lookup holds an integer that `try_into` accepts as a `u16`. */
  predicate FitsU16(ini: IniLookup) {
    ini.IntValue? && 0 <= ini.v < 0x1_0000
  }

  /** The attempt count the configuration yields: the configured one when it fits, else the default. */
  function MaxRebootFor(ini: IniLookup): (n: u16)
    ensures FitsU16(ini) ==> n as int == ini.v
    ensures !FitsU16(ini) ==> n == SetDefault().maxReboot
  {
    if FitsU16(ini) then ini.v as u16 else SetDefault().maxReboot
  }

  /**
   * `GreenbootConfig::get_config`: start from the default and replace the
   * count only when the file builds and the key holds an integer in `u16`
   * range; every other outcome keeps 3.
   */
  method GetConfig(ini: IniLookup) returns (config: GreenbootConfig)
    ensures FitsU16(ini) ==> config.maxReboot as int == ini.v
    ensures !FitsU16(ini) ==> config == SetDefault() && config.maxReboot == 3
    ensures config.maxReboot == MaxRebootFor(ini)
  {
    config := SetDefault();
    match ini {
      case BuildFailed(_) =>
      case KeyError(_) =>
      case IntValue(v) =>
        if 0 <= v < 0x1_0000 {
          config := config.(maxReboot := v as u16);
        }
    }
  }

  // ------------------------------------------------------ previous rollback

  /**
   * The outcome of `journalctl -b -1 -u greenboot-rollback.service`: it
   * could not be started, or it exited with a status and its standard
   * output, decoded as UTF-8 (`None` when that output is not valid UTF-8).
   */
  datatype JournalRun = NotStarted(detail: string) | Exited(success: bool, stdout: Option<string>)

  const JournalSpawnContext := "Failed to execute journalctl command to check rollback status"
  const JournalUtf8Context := "Failed to parse journalctl output as UTF-8"
  const RollbackMarker := "Rollback successful"

  /** The journal held the rollback service's success line. */
  predicate MarkerLogged(journal: JournalRun) {
    journal.Exited? && journal.success && journal.stdout.Some? && Contains(journal.stdout.value, RollbackMarker)
  }

  /** Output that holds the marker is not blank, so the emptiness test never hides it. */
  lemma {:induction false} MarkerOutputNotBlank(out: string)
    ensures Contains(out, RollbackMarker) ==> Trim(out) != []
  {
    if Contains(out, RollbackMarker) {
      assert !Blank(RollbackMarker) by {
        assert !IsWhitespace(RollbackMarker[0]);
      }
      ContainsNonBlank(out, RollbackMarker);
      TrimEmptyIffBlank(out);
    }
  }

  /**
   * `check_previous_rollback`: a rollback is detected exactly when the
   * command succeeded, its output is UTF-8 and contains the marker (the
   * non-blank test is then implied); the check fails exactly when the
   * command cannot start or its successful output is not UTF-8, and a
   * failed command reads as no rollback.
   */
  function CheckPreviousRollback(journal: JournalRun): (r: Result<bool, string>)
    ensures r == Ok(true) <==> MarkerLogged(journal)
    ensures r.Err? <==> journal.NotStarted? || (journal.success && journal.stdout.None?)
    ensures journal.Exited? && !journal.success ==> r == Ok(false)
  {
    match journal
    case NotStarted(_) => Err(JournalSpawnContext)
    case Exited(success, stdout) =>
      if !success then Ok(false)
      else if stdout.None? then Err(JournalUtf8Context)
      else
        MarkerOutputNotBlank(stdout.value);
        if Trim(stdout.value) == [] then Ok(false)
        else Ok(Contains(stdout.value, RollbackMarker))
  }

  /** The rollback status `health_check` uses: an error from the check counts as false. */
  function PreviousRollback(journal: JournalRun): (prev: bool)
    ensures prev <==> MarkerLogged(journal)
  {
    match CheckPreviousRollback(journal)
    case Ok(status) => status
    case Err(_) => false
  }

  // ------------------------------------------------------------------- MOTD

  const FallbackBanner := "FALLBACK BOOT DETECTED! Default bootc deployment has been rolled back.\n"

  /**
   * `generate_motd_message`: never fails; the base message, preceded by the
   * fallback banner exactly when a previous rollback was detected.
   */
  function GenerateMotdMessage(base: string, previousRollback: bool): (r: Result<string, string>)
    ensures r.Ok?
    ensures |r.value| == |base| + (if previousRollback then |FallbackBanner| else 0)
    ensures r.value[|r.value| - |base|..] == base
    ensures previousRollback ==> r.value[..|FallbackBanner|] == FallbackBanner
  {
    var prefix := if previousRollback then FallbackBanner else "";
    Ok(prefix + base)
  }

  // ----------------------------------------------------------- health check

  const InProgressMessage := "Greenboot healthcheck is in progress"
  const GreenMessage := "Greenboot healthcheck passed - status is GREEN"
  const RedMessage := "Greenboot healthcheck failed - status is RED"
  const HealthCheckFailed := "greenboot healthcheck failed"

  /** The results the external collaborators return, per argument. */
  datatype Collaborators = Collaborators(
    motd: string -> Result<(), string>,              // handle_motd
    setBootStatus: bool -> Result<(), string>,       // set_boot_status
    setBootCounter: u16 -> Result<(), string>,       // set_boot_counter
    reboot: bool -> Result<(), string>,              // handle_reboot
    rollback: Result<(), string>,                    // handle_rollback
    unsetBootCounter: Result<(), string>             // unset_boot_counter
  )

  /** A step a subcommand attempts. */
  datatype Step =
    | Motd(message: string)
    | Diagnose
    | GreenHooks
    | RedHooks
    | SetBootStatus(green: bool)
    | SetBootCounter(attempts: u16)
    | Reboot(immediate: bool)
    | Rollback
    | UnsetBootCounter

  /** The MOTD text for a base message under the detected rollback status. */
  function MotdFor(base: string, journal: JournalRun): string {
    GenerateMotdMessage(base, PreviousRollback(journal)).value
  }

  /** The verdict of the diagnostics, run with an empty skip list. */
  predicate DiagnosticsPass(roots: seq<Root>, exec: Invocation -> Outcome) {
    Diagnostics(roots, [], exec).result.Ok?
  }

  /**
   * `health_check`. A failure of the first MOTD aborts before anything
   * else. When the diagnostics pass, the green hooks run, the GREEN MOTD is
   * written (its failure is only logged) and the result is that of
   * `set_boot_status(true)`. When they fail, the RED MOTD, the red hooks,
   * `set_boot_status(false)`, `set_boot_counter(max_reboot)` and
   * `handle_reboot(false)` are all attempted whatever each returns, and the
   * result is always the health-check error.
   */
  method HealthCheck(ini: IniLookup, journal: JournalRun, roots: seq<Root>,
                     exec: Invocation -> Outcome, env: Collaborators)
    returns (r: Result<(), string>, trace: seq<Step>)
    ensures trace != [] && trace[0] == Motd(MotdFor(InProgressMessage, journal))
    ensures env.motd(MotdFor(InProgressMessage, journal)).Err? ==>
      trace == [Motd(MotdFor(InProgressMessage, journal))] && r == env.motd(MotdFor(InProgressMessage, journal))
    ensures env.motd(MotdFor(InProgressMessage, journal)).Ok? && DiagnosticsPass(roots, exec) ==>
      && trace == [Motd(MotdFor(InProgressMessage, journal)), Diagnose, GreenHooks,
                   Motd(MotdFor(GreenMessage, journal)), SetBootStatus(true)]
      && r == env.setBootStatus(true)
    ensures env.motd(MotdFor(InProgressMessage, journal)).Ok? && !DiagnosticsPass(roots, exec) ==>
      && trace == [Motd(MotdFor(InProgressMessage, journal)), Diagnose, Motd(MotdFor(RedMessage, journal)), RedHooks,
                   SetBootStatus(false), SetBootCounter(MaxRebootFor(ini)), Reboot(false)]
      && r == Err(HealthCheckFailed)
    ensures Diagnose in trace <==> env.motd(MotdFor(InProgressMessage, journal)).Ok?
    ensures r.Ok? <==>
      env.motd(MotdFor(InProgressMessage, journal)).Ok? && DiagnosticsPass(roots, exec) && env.setBootStatus(true).Ok?
  {
    var config := GetConfig(ini);
    var previousRollback := PreviousRollback(journal);
    var first := GenerateMotdMessage(InProgressMessage, previousRollback).value;
    var shown := env.motd(first);
    if shown.Err? {
      r, trace := shown, [Motd(first)];
      return;
    }
    var verdict, ran := RunDiagnostics(roots, [], exec);
    if verdict.Ok? {
      var greenErrors, greenRan := RunGreen(roots, exec);
      var green := GenerateMotdMessage(GreenMessage, previousRollback).value;
      var _ := env.motd(green);
      r := env.setBootStatus(true);
      trace := [Motd(first), Diagnose, GreenHooks, Motd(green), SetBootStatus(true)];
    } else {
      var red := GenerateMotdMessage(RedMessage, previousRollback).value;
      var _ := env.motd(red);
      var redErrors, redRan := RunRed(roots, exec);
      var _ := env.setBootStatus(false);
      var _ := env.setBootCounter(config.maxReboot);
      var _ := env.reboot(false);
      r := Err(HealthCheckFailed);
      trace := [Motd(first), Diagnose, Motd(red), RedHooks,
                SetBootStatus(false), SetBootCounter(config.maxReboot), Reboot(false)];
    }
  }

  // --------------------------------------------------------------- rollback

  const RollbackNotInitiated := ", Rollback is not initiated"

  /**
   * `trigger_rollback`: every step propagates its failure. A failed
   * rollback is reported with the suffix and nothing else is attempted; a
   * failed counter clear is returned without a reboot; otherwise the result
   * is that of the immediate reboot.
   */
  method TriggerRollback(env: Collaborators) returns (r: Result<(), string>, trace: seq<Step>)
    ensures env.rollback.Err? ==>
      trace == [Rollback] && r == Err(env.rollback.error + RollbackNotInitiated)
    ensures env.rollback.Ok? && env.unsetBootCounter.Err? ==>
      trace == [Rollback, UnsetBootCounter] && r == env.unsetBootCounter
    ensures env.rollback.Ok? && env.unsetBootCounter.Ok? ==>
      trace == [Rollback, UnsetBootCounter, Reboot(true)] && r == env.reboot(true)
    ensures r.Ok? <==> env.rollback.Ok? && env.unsetBootCounter.Ok? && env.reboot(true).Ok?
    ensures Reboot(true) in trace <==> env.rollback.Ok? && env.unsetBootCounter.Ok?
  {
    trace := [Rollback];
    match env.rollback {
      case Err(e) =>
        r := Err(e + RollbackNotInitiated);
      case Ok(_) =>
        trace := trace + [UnsetBootCounter];
        if env.unsetBootCounter.Err? {
          r := env.unsetBootCounter;
          return;
        }
        trace := trace + [Reboot(true)];
        r := env.reboot(true);
    }
  }
}
