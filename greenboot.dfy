/**
 * The diagnostics engine of src/lib/greenboot.rs: the tier runner
 * `run_scripts`, the two-root, two-tier `run_diagnostics`, and the hook
 * runners `run_red` and `run_green`.
 *
 * The file system and child processes are oracles: a `Listing` is what glob
 * and `fs::metadata` report for a directory, and `exec` gives the outcome of
 * each command the runner starts. Every runner also returns, as a ghost
 * out-parameter, the ordered trace of the commands it started.
 */
module Greenboot {
  import opened Results

  // ------------------------------------------------------------- entities

  /** What `fs::metadata` reports for a path: regular file or not, and the mode bits. */
  datatype Metadata = Metadata(isFile: bool, mode: bv32)

  /**
   * One path yielded by glob. `fileName` is `None` when the path has no file
   * name or it is not UTF-8; `extension` is `None` when there is no extension
   * or it is not UTF-8; `metadata` is `None` when `fs::metadata` fails.
   */
  datatype Entry = Entry(
    path: string,
    fileName: Option<string>,
    extension: Option<string>,
    metadata: Option<Metadata>)

  /**
   * The result of globbing `<dir>*`: a pattern error, or the yielded items in
   * enumeration order, where `None` is an item glob could not read.
   */
  datatype Listing = PatternError(detail: string) | Matches(items: seq<Option<Entry>>)

  /** A started command: `.sh` entries go through `bash -C`, the rest run directly. */
  datatype Invocation = ViaBash(entry: Entry) | Direct(entry: Entry)

  /** What running a command gives: zero exit, non-zero exit, or a spawn error. */
  datatype Outcome = Success | Failure(stdout: string, stderr: string) | SpawnError(detail: string)

  /** The error records a tier run collects. */
  datatype ScriptError =
    | GlobPattern(detail: string)
    | ScriptFailed(tier: string, path: string, stdout: string, stderr: string)
    | SpawnFailed(detail: string)

  /** What `run_scripts` hands back (its `ScriptRunResult`). */
  datatype ScriptRunResult = ScriptRunResult(errors: seq<ScriptError>, skipped: seq<string>)

  /** A tier run together with the commands it started, in order. */
  datatype TierRun = TierRun(errors: seq<ScriptError>, skipped: seq<string>, executed: seq<Invocation>)

  /** The one tier name that is fail-fast. */
  const Required := "required"

  /** The names in a list, as a set. */
  function SetOf(names: seq<string>): set<string> {
    set k | 0 <= k < |names| :: names[k]
  }

  // ---------------------------------------------------------- entry filter

  /** Some execute bit (other, group or owner) is set. */
  predicate HasExecuteBit(mode: bv32) {
    mode & 0x1 != 0 || mode & 0x8 != 0 || mode & 0x40 != 0
  }

  /** The glob filter: readable metadata, a regular file, and extension `sh` or an execute bit. */
  predicate IsCandidate(e: Entry) {
    && e.metadata.Some?
    && e.metadata.value.isFile
    && (e.extension == Some("sh") || HasExecuteBit(e.metadata.value.mode))
  }

  /** The entries `run_scripts` goes on to consider: the candidate items, in order. */
  function Candidates(items: seq<Option<Entry>>): (es: seq<Entry>)
    ensures |es| <= |items|
    ensures forall e :: e in es <==> Some(e) in items && IsCandidate(e)
    decreases |items|
  {
    if items == [] then []
    else
      var rest := Candidates(items[1..]);
      assert forall o :: o in items <==> o == items[0] || o in items[1..];
      match items[0]
      case Some(e) => if IsCandidate(e) then [e] + rest else rest
      case None => rest
  }

  /** The filter keeps its items in order: splitting the listing splits the candidates. */
  lemma {:induction false} CandidatesAppend(a: seq<Option<Entry>>, b: seq<Option<Entry>>)
    ensures Candidates(a + b) == Candidates(a) + Candidates(b)
    decreases |a|
  {
    if a == [] {
      assert a + b == b;
    } else {
      assert (a + b)[0] == a[0];
      assert (a + b)[1..] == a[1..] + b;
      CandidatesAppend(a[1..], b);
      match a[0]
      case Some(e) =>
        if IsCandidate(e) {
          ConcatAssoc([e], Candidates(a[1..]), Candidates(b));
        }
      case None =>
    }
  }

  /** A single item is kept exactly when it is a readable candidate. */
  lemma {:induction false} CandidatesOne(o: Option<Entry>)
    ensures Candidates([o]) == if o.Some? && IsCandidate(o.value) then [o.value] else []
  {
    assert [o][1..] == [];
  }

  /** The combined mask `0o111` tests the same three execute bits. */
  lemma {:induction false} ExecuteBitMask(mode: bv32)
    ensures HasExecuteBit(mode) <==> mode & 0x49 != 0
  {
  }

  // ------------------------------------------------------------ tier runner

  /** The skip test: a disabled list is given and holds the name. */
  predicate IsDisabled(disabled: Option<seq<string>>, name: string) {
    disabled.Some? && name in disabled.value
  }

  /** How an entry is started. */
  function InvocationFor(e: Entry): Invocation {
    if e.extension == Some("sh") then ViaBash(e) else Direct(e)
  }

  /** The record a failed command adds. */
  function ErrorFor(tier: string, inv: Invocation, o: Outcome): ScriptError
    requires !o.Success?
  {
    match o
    case Failure(out, err) => ScriptFailed(tier, inv.entry.path, out, err)
    case SpawnError(detail) => SpawnFailed(detail)
  }

  /** Concatenation of two consecutive parts of a run. */
  function Then(a: TierRun, b: TierRun): TierRun {
    TierRun(a.errors + b.errors, a.skipped + b.skipped, a.executed + b.executed)
  }

  /**
   * What one entry contributes to a run, and whether the run ends after it:
   * a nameless entry is passed over, a disabled name is recorded as skipped,
   * anything else is started; a failure is recorded and, in the required
   * tier, ends the run.
   */
  function EntryStep(tier: string, e: Entry, disabled: Option<seq<string>>,
                     exec: Invocation -> Outcome): (TierRun, bool)
  {
    match e.fileName
    case None => (TierRun([], [], []), false)
    case Some(name) =>
      if IsDisabled(disabled, name) then (TierRun([], [name], []), false)
      else
        var inv := InvocationFor(e);
        var o := exec(inv);
        if o.Success? then (TierRun([], [], [inv]), false)
        else (TierRun([ErrorFor(tier, inv, o)], [], [inv]), tier == Required)
  }

  /** What the loop of `run_scripts` does with the candidate entries `es`, in order. */
  function RunEntries(tier: string, es: seq<Entry>, disabled: Option<seq<string>>,
                      exec: Invocation -> Outcome): TierRun
    decreases |es|
  {
    if es == [] then TierRun([], [], [])
    else
      var (part, stop) := EntryStep(tier, es[0], disabled, exec);
      if stop then part else Then(part, RunEntries(tier, es[1..], disabled, exec))
  }

  lemma {:induction false} RunEntriesFrom(tier: string, es: seq<Entry>, i: nat, disabled: Option<seq<string>>,
                       exec: Invocation -> Outcome)
    requires i < |es|
    ensures var (part, stop) := EntryStep(tier, es[i], disabled, exec);
      RunEntries(tier, es[i..], disabled, exec)
      == if stop then part else Then(part, RunEntries(tier, es[i + 1..], disabled, exec))
  {
    assert es[i..][0] == es[i];
    assert es[i..][1..] == es[i + 1..];
  }

  lemma {:induction false} ThenAssoc(a: TierRun, b: TierRun, c: TierRun)
    ensures Then(Then(a, b), c) == Then(a, Then(b, c))
  {
  }

  /** `run_scripts` as a function of the directory listing. */
  function Run(tier: string, listing: Listing, disabled: Option<seq<string>>,
               exec: Invocation -> Outcome): TierRun
  {
    match listing
    case PatternError(detail) => TierRun([GlobPattern(detail)], [], [])
    case Matches(items) => RunEntries(tier, Candidates(items), disabled, exec)
  }

  /**
   * A glob pattern error is the only error of the run: nothing is skipped
   * and nothing is started, whatever the tier.
   */
  lemma {:induction false} PatternErrorRunsNothing(tier: string, detail: string, disabled: Option<seq<string>>,
                                exec: Invocation -> Outcome)
    ensures Run(tier, PatternError(detail), disabled, exec) == TierRun([GlobPattern(detail)], [], [])
  {
  }

  /** `run_scripts`: filter the listing, then skip, start and record entry by entry. */
  method RunScripts(tier: string, listing: Listing, disabled: Option<seq<string>>,
                    exec: Invocation -> Outcome)
    returns (result: ScriptRunResult, ghost executed: seq<Invocation>)
    ensures TierRun(result.errors, result.skipped, executed) == Run(tier, listing, disabled, exec)
  {
    result := ScriptRunResult([], []);
    executed := [];
    var entries: seq<Entry>;
    match listing {
      case PatternError(detail) =>
        result := result.(errors := result.errors + [GlobPattern(detail)]);
        return;
      case Matches(items) =>
        entries := Candidates(items);
    }
    ghost var all := RunEntries(tier, entries, disabled, exec);
    for i := 0 to |entries|
      invariant Then(TierRun(result.errors, result.skipped, executed),
                     RunEntries(tier, entries[i..], disabled, exec)) == all
    {
      ghost var before := TierRun(result.errors, result.skipped, executed);
      ghost var step := EntryStep(tier, entries[i], disabled, exec);
      RunEntriesFrom(tier, entries, i, disabled, exec);
      ThenAssoc(before, step.0, RunEntries(tier, entries[i + 1..], disabled, exec));
      var entry := entries[i];
      if entry.fileName.None? {
        assert before == Then(before, step.0);
        continue;
      }
      var name := entry.fileName.value;
      if IsDisabled(disabled, name) {
        result := result.(skipped := result.skipped + [name]);
        assert TierRun(result.errors, result.skipped, executed) == Then(before, step.0);
        continue;
      }
      var inv := InvocationFor(entry);
      executed := executed + [inv];
      var output := exec(inv);
      if !output.Success? {
        result := result.(errors := result.errors + [ErrorFor(tier, inv, output)]);
        assert TierRun(result.errors, result.skipped, executed) == Then(before, step.0);
        if tier == Required {
          break;
        }
      } else {
        assert TierRun(result.errors, result.skipped, executed) == Then(before, step.0);
      }
    }
  }

  // ------------------------------------------- reference views of a run

  /** The invocations of the entries that have a UTF-8 name that is not disabled, in order. */
  function Runnable(es: seq<Entry>, disabled: Option<seq<string>>): seq<Invocation>
    decreases |es|
  {
    if es == [] then []
    else
      var rest := Runnable(es[1..], disabled);
      match es[0].fileName
      case None => rest
      case Some(name) => if IsDisabled(disabled, name) then rest else [InvocationFor(es[0])] + rest
  }

  /** The names of the entries whose UTF-8 name is disabled, in order. */
  function SkippedNames(es: seq<Entry>, disabled: Option<seq<string>>): seq<string>
    decreases |es|
  {
    if es == [] then []
    else
      var rest := SkippedNames(es[1..], disabled);
      match es[0].fileName
      case None => rest
      case Some(name) => if IsDisabled(disabled, name) then [name] + rest else rest
  }

  /**
   * Every runnable command belongs to an entry of `es` with a UTF-8 name
   * that is not disabled, and goes through `bash -C` exactly when the
   * entry's extension is `sh`.
   */
  lemma {:induction false} RunnableEntries(es: seq<Entry>, disabled: Option<seq<string>>)
    ensures forall k :: 0 <= k < |Runnable(es, disabled)| ==>
      && Runnable(es, disabled)[k].entry.fileName.Some?
      && !IsDisabled(disabled, Runnable(es, disabled)[k].entry.fileName.value)
      && Runnable(es, disabled)[k] == InvocationFor(Runnable(es, disabled)[k].entry)
      && Runnable(es, disabled)[k].entry in es
    decreases |es|
  {
    if es != [] {
      RunnableEntries(es[1..], disabled);
      var rest := Runnable(es[1..], disabled);
      assert forall e :: e in es[1..] ==> e in es;
      match es[0].fileName
      case None =>
        assert Runnable(es, disabled) == rest;
      case Some(name) =>
        if !IsDisabled(disabled, name) {
          var invs := [InvocationFor(es[0])] + rest;
          assert Runnable(es, disabled) == invs;
          assert invs[0].entry == es[0];
          assert forall k :: 1 <= k < |invs| ==> invs[k] == rest[k - 1];
        } else {
          assert Runnable(es, disabled) == rest;
        }
    }
  }

  /** Some entry of `es` has the UTF-8 name `name`. */
  predicate NamedIn(es: seq<Entry>, name: string) {
    exists e :: e in es && e.fileName == Some(name)
  }

  /** Every name in the skipped view is disabled and is the name of an entry of `es`. */
  lemma {:induction false} SkippedNamesPresent(es: seq<Entry>, disabled: Option<seq<string>>)
    ensures forall k :: 0 <= k < |SkippedNames(es, disabled)| ==>
      IsDisabled(disabled, SkippedNames(es, disabled)[k]) && NamedIn(es, SkippedNames(es, disabled)[k])
    decreases |es|
  {
    if es != [] {
      SkippedNamesPresent(es[1..], disabled);
      var rest := SkippedNames(es[1..], disabled);
      forall k | 0 <= k < |rest| ensures NamedIn(es, rest[k]) {
        var e :| e in es[1..] && e.fileName == Some(rest[k]);
        assert e in es;
      }
      match es[0].fileName
      case None =>
        assert SkippedNames(es, disabled) == rest;
      case Some(name) =>
        if IsDisabled(disabled, name) {
          var names := [name] + rest;
          assert SkippedNames(es, disabled) == names;
          assert es[0] in es;
          assert NamedIn(es, name);
          assert forall k :: 1 <= k < |names| ==> names[k] == rest[k - 1];
        } else {
          assert SkippedNames(es, disabled) == rest;
        }
    }
  }

  /** The records the failing invocations among `invs` give, in order. */
  function Failures(tier: string, invs: seq<Invocation>, exec: Invocation -> Outcome): seq<ScriptError>
    decreases |invs|
  {
    if invs == [] then []
    else
      var rest := Failures(tier, invs[1..], exec);
      var o := exec(invs[0]);
      if o.Success? then rest else [ErrorFor(tier, invs[0], o)] + rest
  }

  lemma {:induction false} FailuresEmptyIff(tier: string, invs: seq<Invocation>, exec: Invocation -> Outcome)
    ensures Failures(tier, invs, exec) == [] <==> forall k :: 0 <= k < |invs| ==> exec(invs[k]).Success?
    decreases |invs|
  {
    if invs != [] {
      FailuresEmptyIff(tier, invs[1..], exec);
      assert forall k :: 1 <= k < |invs| ==> invs[k] == invs[1..][k - 1];
    }
  }

  lemma {:induction false} FailuresAppend(tier: string, a: seq<Invocation>, b: seq<Invocation>,
                                          exec: Invocation -> Outcome)
    ensures Failures(tier, a + b, exec) == Failures(tier, a, exec) + Failures(tier, b, exec)
    decreases |a|
  {
    if a == [] {
      assert a + b == b;
    } else {
      assert (a + b)[1..] == a[1..] + b;
      FailuresAppend(tier, a[1..], b, exec);
    }
  }

  /**
   * One entry's step against the reference views: it starts exactly the
   * entry's runnable command, if any, skips exactly its disabled name, if
   * any, records exactly the failure of what it started, and ends the run
   * exactly when that failure happens in the required tier.
   */
  lemma {:induction false} EntryStepShape(tier: string, e: Entry, disabled: Option<seq<string>>, exec: Invocation -> Outcome)
    ensures var (part, stop) := EntryStep(tier, e, disabled, exec);
      && |part.executed| <= 1
      && (stop <==> tier == Required && part.errors != [])
      && (part.errors != [] ==> part.skipped == [] && |part.executed| == 1 && !exec(part.executed[0]).Success?)
      && (part.errors == [] && part.executed != [] ==> exec(part.executed[0]).Success?)
  {
  }

  lemma {:induction false} EntryStepViews(tier: string, es: seq<Entry>, disabled: Option<seq<string>>, exec: Invocation -> Outcome)
    requires es != []
    ensures var (part, stop) := EntryStep(tier, es[0], disabled, exec);
      && Runnable(es, disabled) == part.executed + Runnable(es[1..], disabled)
      && SkippedNames(es, disabled) == part.skipped + SkippedNames(es[1..], disabled)
      && part.errors == Failures(tier, part.executed, exec)
      && (stop <==> tier == Required && part.errors != [])
  {
    match es[0].fileName
    case None =>
    case Some(name) =>
      if !IsDisabled(disabled, name) {
        var inv := InvocationFor(es[0]);
        assert [inv][1..] == [];
      }
  }

  lemma {:induction false} PrefixCat<T>(p: seq<T>, a: seq<T>, b: seq<T>)
    requires a <= b
    ensures p + a <= p + b
  {
    assert (p + b)[..|p + a|] == p + b[..|a|];
  }

  // ------------------------------------------------ properties of a run

  /**
   * In every tier, the run starts a prefix of the runnable entries, skips a
   * prefix of the disabled ones, and records exactly the failures among the
   * commands it started, in order.
   */
  lemma {:induction false} RunShape(tier: string, es: seq<Entry>, disabled: Option<seq<string>>,
                                    exec: Invocation -> Outcome)
    ensures var r := RunEntries(tier, es, disabled, exec);
      && r.executed <= Runnable(es, disabled)
      && r.skipped <= SkippedNames(es, disabled)
      && r.errors == Failures(tier, r.executed, exec)
    decreases |es|
  {
    if es != [] {
      RunShape(tier, es[1..], disabled, exec);
      EntryStepViews(tier, es, disabled, exec);
      var (part, stop) := EntryStep(tier, es[0], disabled, exec);
      var rest := RunEntries(tier, es[1..], disabled, exec);
      if stop {
        PrefixCat(part.executed, [], Runnable(es[1..], disabled));
        assert part.executed + [] == part.executed;
      } else {
        PrefixCat(part.executed, rest.executed, Runnable(es[1..], disabled));
        PrefixCat(part.skipped, rest.skipped, SkippedNames(es[1..], disabled));
        FailuresAppend(tier, part.executed, rest.executed, exec);
      }
    }
  }

  /**
   * Skipped names never run: every started command belongs to an entry with
   * a UTF-8 name that is not disabled, every recorded skip is a disabled
   * name of an entry, and entries without a UTF-8 name are neither.
   */
  lemma {:induction false} NothingDisabledRuns(tier: string, es: seq<Entry>, disabled: Option<seq<string>>,
                            exec: Invocation -> Outcome)
    ensures var r := RunEntries(tier, es, disabled, exec);
      && (forall k :: 0 <= k < |r.executed| ==>
            && r.executed[k].entry in es
            && r.executed[k].entry.fileName.Some?
            && !IsDisabled(disabled, r.executed[k].entry.fileName.value))
      && (forall k :: 0 <= k < |r.skipped| ==>
            IsDisabled(disabled, r.skipped[k]) && NamedIn(es, r.skipped[k]))
  {
    RunShape(tier, es, disabled, exec);
    RunnableEntries(es, disabled);
    SkippedNamesPresent(es, disabled);
    var r := RunEntries(tier, es, disabled, exec);
    var run, names := Runnable(es, disabled), SkippedNames(es, disabled);
    assert forall k :: 0 <= k < |r.executed| ==> r.executed[k] == run[k];
    assert forall k :: 0 <= k < |r.skipped| ==> r.skipped[k] == names[k];
  }

  /**
   * Any tier other than "required" starts every runnable entry and skips
   * every disabled one, so its errors are the failures of all runnable
   * entries, in enumeration order.
   */
  lemma {:induction false} OtherTiersRunEverything(tier: string, es: seq<Entry>,
                                                   disabled: Option<seq<string>>,
                                                   exec: Invocation -> Outcome)
    requires tier != Required
    ensures var r := RunEntries(tier, es, disabled, exec);
      && r.executed == Runnable(es, disabled)
      && r.skipped == SkippedNames(es, disabled)
      && r.errors == Failures(tier, Runnable(es, disabled), exec)
    decreases |es|
  {
    if es != [] {
      OtherTiersRunEverything(tier, es[1..], disabled, exec);
      EntryStepViews(tier, es, disabled, exec);
      var (part, stop) := EntryStep(tier, es[0], disabled, exec);
      FailuresAppend(tier, part.executed, Runnable(es[1..], disabled), exec);
    }
  }

  /** Every command but the last succeeded. */
  predicate AllButLastSucceed(invs: seq<Invocation>, exec: Invocation -> Outcome) {
    forall k :: 0 <= k < |invs| - 1 ==> exec(invs[k]).Success?
  }

  /** The last command failed. */
  predicate LastFailed(invs: seq<Invocation>, exec: Invocation -> Outcome) {
    invs != [] && !exec(invs[|invs| - 1]).Success?
  }

  /** Some command of the list fails. */
  predicate SomeFails(invs: seq<Invocation>, exec: Invocation -> Outcome) {
    exists k :: 0 <= k < |invs| && !exec(invs[k]).Success?
  }

  /** A succeeded command, or none, in front of a list keeps both properties of the list. */
  lemma {:induction false} SucceededInFront(p: seq<Invocation>, q: seq<Invocation>, exec: Invocation -> Outcome)
    requires |p| <= 1 && (p != [] ==> exec(p[0]).Success?)
    requires AllButLastSucceed(q, exec)
    ensures AllButLastSucceed(p + q, exec)
    ensures LastFailed(q, exec) ==> LastFailed(p + q, exec)
  {
    if p == [] {
      assert p + q == q;
    } else {
      forall k | 0 <= k < |p + q| - 1 ensures exec((p + q)[k]).Success? {
        if k > 0 { assert (p + q)[k] == q[k - 1]; }
      }
      if q != [] {
        assert (p + q)[|p + q| - 1] == q[|q| - 1];
      }
    }
  }

  /** In the required tier only the last command started can have failed. */
  lemma {:induction false} RequiredFailsLast(es: seq<Entry>, disabled: Option<seq<string>>,
                                             exec: Invocation -> Outcome)
    ensures AllButLastSucceed(RunEntries(Required, es, disabled, exec).executed, exec)
    ensures RunEntries(Required, es, disabled, exec).errors != [] ==>
      LastFailed(RunEntries(Required, es, disabled, exec).executed, exec)
    decreases |es|
  {
    if es != [] {
      RequiredFailsLast(es[1..], disabled, exec);
      EntryStepShape(Required, es[0], disabled, exec);
      var rest := RunEntries(Required, es[1..], disabled, exec);
      var (part, stop) := EntryStep(Required, es[0], disabled, exec);
      if stop {
        assert RunEntries(Required, es, disabled, exec) == part;
      } else {
        assert RunEntries(Required, es, disabled, exec) == Then(part, rest);
        SucceededInFront(part.executed, rest.executed, exec);
      }
    }
  }

  /** In the required tier a run that records no error has run and skipped everything. */
  lemma {:induction false} RequiredPassRunsAll(es: seq<Entry>, disabled: Option<seq<string>>,
                                               exec: Invocation -> Outcome)
    ensures var r := RunEntries(Required, es, disabled, exec);
      r.errors == [] ==> r.executed == Runnable(es, disabled) && r.skipped == SkippedNames(es, disabled)
    decreases |es|
  {
    if es != [] {
      RequiredPassRunsAll(es[1..], disabled, exec);
      EntryStepViews(Required, es, disabled, exec);
    }
  }

  /** The failures of commands of which all but the last succeeded: at most the last one's. */
  lemma {:induction false} FailuresOfSucceededPrefix(tier: string, invs: seq<Invocation>, exec: Invocation -> Outcome)
    requires AllButLastSucceed(invs, exec)
    ensures Failures(tier, invs, exec)
         == if LastFailed(invs, exec)
            then [ErrorFor(tier, invs[|invs| - 1], exec(invs[|invs| - 1]))] else []
    decreases |invs|
  {
    if |invs| > 1 {
      assert forall k :: 0 <= k < |invs[1..]| - 1 ==> invs[1..][k] == invs[k + 1];
      FailuresOfSucceededPrefix(tier, invs[1..], exec);
      assert invs[1..][|invs[1..]| - 1] == invs[|invs| - 1];
    }
  }

  /**
   * The required tier is fail-fast: it records at most one error; it starts
   * a prefix of the runnable commands, and every one but the last succeeded; it records an error exactly
   * when some runnable entry fails, and then the error is that of the last
   * command started; with no error it has run and skipped everything.
   */
  lemma {:induction false} RequiredFailFast(es: seq<Entry>, disabled: Option<seq<string>>, exec: Invocation -> Outcome)
    ensures var r := RunEntries(Required, es, disabled, exec);
      var run := Runnable(es, disabled);
      && |r.errors| <= 1
      && r.executed <= run
      && AllButLastSucceed(r.executed, exec)
      && (r.errors != [] <==> SomeFails(run, exec))
      && (r.errors != [] ==>
            && LastFailed(r.executed, exec)
            && var last := r.executed[|r.executed| - 1];
               r.errors == [ErrorFor(Required, last, exec(last))])
      && (r.errors == [] ==> r.executed == run && r.skipped == SkippedNames(es, disabled))
  {
    var r := RunEntries(Required, es, disabled, exec);
    var run := Runnable(es, disabled);
    RunShape(Required, es, disabled, exec);
    RequiredFailsLast(es, disabled, exec);
    RequiredPassRunsAll(es, disabled, exec);
    FailuresOfSucceededPrefix(Required, r.executed, exec);
    FailuresEmptyIff(Required, run, exec);
    if r.errors != [] {
      var n := |r.executed| - 1;
      assert r.executed[n] == run[n];
    }
  }

  // ------------------------------------------------------------ diagnostics

  /**
   * One install root: whether `check/required.d/` is a directory, and the
   * listings of its `check/required.d/`, `check/wanted.d/`, `red.d/` and
   * `green.d/` (a missing directory globs to no items).
   */
  datatype Root = Root(requiredIsDir: bool, required: Listing, wanted: Listing, red: Listing, green: Listing)

  /** The two ways `run_diagnostics` fails. */
  datatype DiagError = NoRequiredDir | RequiredFailed {
    function Message(): string {
      match this
      case NoRequiredDir => "cannot find any required.d folder"
      case RequiredFailed => "required health-check failed, skipping remaining scripts"
    }
  }

  /** A diagnostics verdict (the disabled names never met, or the error) and the commands started. */
  datatype Diagnosis = Diagnosis(result: Result<set<string>, DiagError>, executed: seq<Invocation>)

  /** The state after the required phase over some roots. */
  datatype RequiredPhase = RequiredPhase(found: bool, failed: bool, skipped: set<string>, executed: seq<Invocation>)

  /** The state after the wanted phase over some roots. */
  datatype WantedPhase = WantedPhase(skipped: set<string>, executed: seq<Invocation>)

  /** The required tier over `roots`, in order, stopping at the first root with an error. */
  function RequiredChecks(roots: seq<Root>, disabled: seq<string>, exec: Invocation -> Outcome): RequiredPhase
    decreases |roots|
  {
    if roots == [] then RequiredPhase(false, false, {}, [])
    else if !roots[0].requiredIsDir then RequiredChecks(roots[1..], disabled, exec)
    else
      var t := Run(Required, roots[0].required, Some(disabled), exec);
      if t.errors != [] then RequiredPhase(true, true, SetOf(t.skipped), t.executed)
      else
        var rest := RequiredChecks(roots[1..], disabled, exec);
        RequiredPhase(true, rest.failed, SetOf(t.skipped) + rest.skipped, t.executed + rest.executed)
  }

  /** The wanted tier over every root, in order; its errors are only logged. */
  function WantedChecks(roots: seq<Root>, disabled: seq<string>, exec: Invocation -> Outcome): WantedPhase
    decreases |roots|
  {
    if roots == [] then WantedPhase({}, [])
    else
      var t := Run("wanted", roots[0].wanted, Some(disabled), exec);
      var rest := WantedChecks(roots[1..], disabled, exec);
      WantedPhase(SetOf(t.skipped) + rest.skipped, t.executed + rest.executed)
  }

  /** `run_diagnostics` as a function of the roots, the disabled list and the outcomes. */
  function Diagnostics(roots: seq<Root>, disabled: seq<string>, exec: Invocation -> Outcome): Diagnosis {
    var req := RequiredChecks(roots, disabled, exec);
    if req.failed then Diagnosis(Err(RequiredFailed), req.executed)
    else if !req.found then Diagnosis(Err(NoRequiredDir), req.executed)
    else
      var wanted := WantedChecks(roots, disabled, exec);
      Diagnosis(Ok(SetOf(disabled) - (req.skipped + wanted.skipped)), req.executed + wanted.executed)
  }

  lemma {:induction false} RequiredChecksFrom(roots: seq<Root>, i: nat, disabled: seq<string>, exec: Invocation -> Outcome)
    requires i < |roots|
    ensures RequiredChecks(roots[i..], disabled, exec)
         == if !roots[i].requiredIsDir then RequiredChecks(roots[i + 1..], disabled, exec)
            else
              var t := Run(Required, roots[i].required, Some(disabled), exec);
              if t.errors != [] then RequiredPhase(true, true, SetOf(t.skipped), t.executed)
              else
                var rest := RequiredChecks(roots[i + 1..], disabled, exec);
                RequiredPhase(true, rest.failed, SetOf(t.skipped) + rest.skipped, t.executed + rest.executed)
  {
    assert roots[i..][0] == roots[i];
    assert roots[i..][1..] == roots[i + 1..];
  }

  lemma {:induction false} WantedChecksFrom(roots: seq<Root>, i: nat, disabled: seq<string>, exec: Invocation -> Outcome)
    requires i < |roots|
    ensures var t := Run("wanted", roots[i].wanted, Some(disabled), exec);
      var rest := WantedChecks(roots[i + 1..], disabled, exec);
      WantedChecks(roots[i..], disabled, exec) == WantedPhase(SetOf(t.skipped) + rest.skipped, t.executed + rest.executed)
  {
    assert roots[i..][0] == roots[i];
    assert roots[i..][1..] == roots[i + 1..];
  }

  /** Both accumulations of the required loop, as one. */
  function Merge(a: RequiredPhase, b: RequiredPhase): RequiredPhase {
    RequiredPhase(a.found || b.found, b.failed, a.skipped + b.skipped, a.executed + b.executed)
  }

  /** Moving one passing root's part of the required phase from the rest into the state. */
  lemma {:induction false} MergeShift(state: RequiredPhase, skipped: set<string>, executed: seq<Invocation>, rest: RequiredPhase)
    requires !state.failed
    ensures Merge(state, RequiredPhase(true, rest.failed, skipped + rest.skipped, executed + rest.executed))
         == Merge(RequiredPhase(true, false, state.skipped + skipped, state.executed + executed), rest)
  {
    assert state.executed + (executed + rest.executed) == (state.executed + executed) + rest.executed;
    assert state.skipped + (skipped + rest.skipped) == (state.skipped + skipped) + rest.skipped;
  }

  /** Moving one root's part of the wanted phase from the rest into the state. */
  lemma {:induction false} WantedShift(skipped: set<string>, executed: seq<Invocation>, part: set<string>, ran: seq<Invocation>, rest: WantedPhase)
    ensures skipped + (part + rest.skipped) == (skipped + part) + rest.skipped
    ensures executed + (ran + rest.executed) == (executed + ran) + rest.executed
  {
    ConcatAssoc(executed, ran, rest.executed);
  }

  /** `run_diagnostics`: the required tier of each root, then the wanted tier of each root. */
  method RunDiagnostics(roots: seq<Root>, skipped: seq<string>, exec: Invocation -> Outcome)
    returns (r: Result<set<string>, DiagError>, ghost executed: seq<Invocation>)
    ensures Diagnosis(r, executed) == Diagnostics(roots, skipped, exec)
  {
    var pathExists := false;
    var allSkipped: set<string> := {};
    var disabledScripts := SetOf(skipped);
    executed := [];
    ghost var req := RequiredChecks(roots, skipped, exec);
    for i := 0 to |roots|
      invariant Merge(RequiredPhase(pathExists, false, allSkipped, executed),
                      RequiredChecks(roots[i..], skipped, exec)) == req
    {
      RequiredChecksFrom(roots, i, skipped, exec);
      if !roots[i].requiredIsDir {
        continue;
      }
      ghost var before := RequiredPhase(pathExists, false, allSkipped, executed);
      pathExists := true;
      var result, ran := RunScripts(Required, roots[i].required, Some(skipped), exec);
      allSkipped := allSkipped + SetOf(result.skipped);
      executed := executed + ran;
      if result.errors != [] {
        r := Err(RequiredFailed);
        assert req.failed && req.executed == executed;
        return;
      }
      MergeShift(before, SetOf(result.skipped), ran, RequiredChecks(roots[i + 1..], skipped, exec));
    }
    assert roots[|roots|..] == [];
    assert !req.failed && req.found == pathExists && req.skipped == allSkipped && req.executed == executed;
    if !pathExists {
      r := Err(NoRequiredDir);
      return;
    }
    ghost var wanted := WantedChecks(roots, skipped, exec);
    for i := 0 to |roots|
      invariant allSkipped + WantedChecks(roots[i..], skipped, exec).skipped == req.skipped + wanted.skipped
      invariant executed + WantedChecks(roots[i..], skipped, exec).executed == req.executed + wanted.executed
    {
      WantedChecksFrom(roots, i, skipped, exec);
      var result, ran := RunScripts("wanted", roots[i].wanted, Some(skipped), exec);
      WantedShift(allSkipped, executed, SetOf(result.skipped), ran, WantedChecks(roots[i + 1..], skipped, exec));
      allSkipped := allSkipped + SetOf(result.skipped);
      executed := executed + ran;
    }
    assert roots[|roots|..] == [];
    assert allSkipped == req.skipped + wanted.skipped;
    r := Ok(disabledScripts - allSkipped);
  }

  // ---------------------------------------------- properties of diagnostics

  /** A root passes the required phase: it has no required directory, or its run records no error. */
  predicate RequiredPasses(root: Root, disabled: seq<string>, exec: Invocation -> Outcome) {
    !root.requiredIsDir || Run(Required, root.required, Some(disabled), exec).errors == []
  }

  predicate HasRequiredDir(roots: seq<Root>) {
    exists k :: 0 <= k < |roots| && roots[k].requiredIsDir
  }

  /** The disabled names a listing yields as candidate entries. */
  function ListingSkips(listing: Listing, disabled: seq<string>): set<string> {
    match listing
    case PatternError(_) => {}
    case Matches(items) => SetOf(SkippedNames(Candidates(items), Some(disabled)))
  }

  /** The disabled names present in the required directories and the wanted listings of `roots`. */
  function DisabledOnDisk(roots: seq<Root>, disabled: seq<string>): set<string>
    decreases |roots|
  {
    if roots == [] then {}
    else
      (if roots[0].requiredIsDir then ListingSkips(roots[0].required, disabled) else {})
      + ListingSkips(roots[0].wanted, disabled)
      + DisabledOnDisk(roots[1..], disabled)
  }

  function RequiredOnDisk(roots: seq<Root>, disabled: seq<string>): set<string>
    decreases |roots|
  {
    if roots == [] then {}
    else
      (if roots[0].requiredIsDir then ListingSkips(roots[0].required, disabled) else {})
      + RequiredOnDisk(roots[1..], disabled)
  }

  function WantedOnDisk(roots: seq<Root>, disabled: seq<string>): set<string>
    decreases |roots|
  {
    if roots == [] then {} else ListingSkips(roots[0].wanted, disabled) + WantedOnDisk(roots[1..], disabled)
  }

  lemma {:induction false} OnDiskSplits(roots: seq<Root>, disabled: seq<string>)
    ensures DisabledOnDisk(roots, disabled) == RequiredOnDisk(roots, disabled) + WantedOnDisk(roots, disabled)
    decreases |roots|
  {
    if roots != [] {
      OnDiskSplits(roots[1..], disabled);
    }
  }

  /** A passing run of the required tier skips exactly the disabled names of the listing. */
  lemma {:induction false} PassingRequiredSkips(listing: Listing, disabled: seq<string>, exec: Invocation -> Outcome)
    requires Run(Required, listing, Some(disabled), exec).errors == []
    ensures SetOf(Run(Required, listing, Some(disabled), exec).skipped) == ListingSkips(listing, disabled)
  {
    match listing
    case PatternError(_) =>
    case Matches(items) => RequiredFailFast(Candidates(items), Some(disabled), exec);
  }

  lemma {:induction false} RequiredChecksShape(roots: seq<Root>, disabled: seq<string>, exec: Invocation -> Outcome)
    ensures var req := RequiredChecks(roots, disabled, exec);
      && (req.failed <==> exists k :: 0 <= k < |roots| && !RequiredPasses(roots[k], disabled, exec))
      && (req.found <==> HasRequiredDir(roots))
      && (!req.failed ==> req.skipped == RequiredOnDisk(roots, disabled))
    decreases |roots|
  {
    if roots != [] {
      RequiredChecksShape(roots[1..], disabled, exec);
      assert forall k :: 1 <= k < |roots| ==> roots[k] == roots[1..][k - 1];
      if RequiredPasses(roots[0], disabled, exec) && roots[0].requiredIsDir {
        PassingRequiredSkips(roots[0].required, disabled, exec);
      }
    }
  }

  lemma {:induction false} WantedChecksSkips(roots: seq<Root>, disabled: seq<string>, exec: Invocation -> Outcome)
    ensures WantedChecks(roots, disabled, exec).skipped == WantedOnDisk(roots, disabled)
    decreases |roots|
  {
    if roots != [] {
      WantedChecksSkips(roots[1..], disabled, exec);
      match roots[0].wanted
      case PatternError(_) =>
      case Matches(items) => OtherTiersRunEverything("wanted", Candidates(items), Some(disabled), exec);
    }
  }

  /**
   * The verdict of `run_diagnostics`: it fails with the required error
   * exactly when some root's required run records an error, fails with the
   * missing-directory error exactly when no root has a required directory,
   * and otherwise returns the disabled names that no required directory and
   * no wanted listing holds. Nothing about the wanted tier's outcomes
   * enters the verdict.
   */
  lemma {:induction false} DiagnosticsVerdict(roots: seq<Root>, disabled: seq<string>, exec: Invocation -> Outcome)
    ensures var r := Diagnostics(roots, disabled, exec).result;
      && (r == Err(RequiredFailed) <==> exists k :: 0 <= k < |roots| && !RequiredPasses(roots[k], disabled, exec))
      && (r == Err(NoRequiredDir) <==> !HasRequiredDir(roots))
      && (r.Ok? ==> r.value == SetOf(disabled) - DisabledOnDisk(roots, disabled))
  {
    RequiredChecksShape(roots, disabled, exec);
    WantedChecksSkips(roots, disabled, exec);
    OnDiskSplits(roots, disabled);
    var req := RequiredChecks(roots, disabled, exec);
    if !HasRequiredDir(roots) {
      assert !req.failed by {
        forall k | 0 <= k < |roots| ensures RequiredPasses(roots[k], disabled, exec) {
          assert !roots[k].requiredIsDir;
        }
      }
    }
  }

  /**
   * A failing required run ends diagnostics at once: if root `k` is the first
   * whose required run records an error, diagnostics fail, and the commands
   * started are those of the required runs of the roots before `k` followed
   * by those of root `k`'s: no later root and no wanted entry runs.
   */
  lemma {:induction false} RequiredFailureStopsDiagnostics(roots: seq<Root>, disabled: seq<string>,
                                        exec: Invocation -> Outcome, k: nat)
    requires k < |roots|
    requires forall j :: 0 <= j < k ==> RequiredPasses(roots[j], disabled, exec)
    requires !RequiredPasses(roots[k], disabled, exec)
    ensures Diagnostics(roots, disabled, exec).result == Err(RequiredFailed)
    ensures Diagnostics(roots, disabled, exec).executed
         == PassedPrefix(roots, k, disabled, exec) + Run(Required, roots[k].required, Some(disabled), exec).executed
  {
    RequiredChecksStopAt(roots, disabled, exec, k);
  }

  /** The commands the required runs of the first `k` roots start, in order. */
  function PassedPrefix(roots: seq<Root>, k: nat, disabled: seq<string>, exec: Invocation -> Outcome): seq<Invocation>
    requires k <= |roots|
    decreases k
  {
    if k == 0 then [] else PassedPart(roots[0], disabled, exec) + PassedPrefix(roots[1..], k - 1, disabled, exec)
  }

  /** The required phase stops at the first root whose required run records an error. */
  lemma {:induction false} RequiredChecksStopAt(roots: seq<Root>, disabled: seq<string>,
                                                exec: Invocation -> Outcome, k: nat)
    requires k < |roots|
    requires forall j :: 0 <= j < k ==> RequiredPasses(roots[j], disabled, exec)
    requires !RequiredPasses(roots[k], disabled, exec)
    ensures RequiredChecks(roots, disabled, exec).failed
    ensures RequiredChecks(roots, disabled, exec).executed
         == PassedPrefix(roots, k, disabled, exec) + Run(Required, roots[k].required, Some(disabled), exec).executed
    decreases k
  {
    var last := Run(Required, roots[k].required, Some(disabled), exec).executed;
    if k == 0 {
      RequiredChecksFirstFails(roots, disabled, exec);
      assert [] + last == last;
    } else {
      var tail := roots[1..];
      assert forall j :: 0 <= j < k - 1 ==> RequiredPasses(tail[j], disabled, exec) by {
        assert forall j :: 0 <= j < k - 1 ==> tail[j] == roots[j + 1];
      }
      assert tail[k - 1] == roots[k];
      RequiredChecksStopAt(tail, disabled, exec, k - 1);
      RequiredChecksCons(roots, disabled, exec);
      var first := PassedPart(roots[0], disabled, exec);
      var mid := PassedPrefix(tail, k - 1, disabled, exec);
      assert PassedPrefix(roots, k, disabled, exec) == first + mid;
      ConcatAssoc(first, mid, last);
    }
  }

  /** A first root that fails ends the required phase with its own commands. */
  lemma {:induction false} RequiredChecksFirstFails(roots: seq<Root>, disabled: seq<string>, exec: Invocation -> Outcome)
    requires roots != [] && !RequiredPasses(roots[0], disabled, exec)
    ensures RequiredChecks(roots, disabled, exec).failed
    ensures RequiredChecks(roots, disabled, exec).executed
         == Run(Required, roots[0].required, Some(disabled), exec).executed
  {
  }

  /** The commands a root that passes the required phase contributes to it. */
  function PassedPart(root: Root, disabled: seq<string>, exec: Invocation -> Outcome): seq<Invocation> {
    if root.requiredIsDir then Run(Required, root.required, Some(disabled), exec).executed else []
  }

  /** A first root that passes leaves the verdict to the rest and puts its commands first. */
  lemma {:induction false} RequiredChecksCons(roots: seq<Root>, disabled: seq<string>, exec: Invocation -> Outcome)
    requires roots != [] && RequiredPasses(roots[0], disabled, exec)
    ensures RequiredChecks(roots, disabled, exec).failed == RequiredChecks(roots[1..], disabled, exec).failed
    ensures RequiredChecks(roots, disabled, exec).executed
         == PassedPart(roots[0], disabled, exec) + RequiredChecks(roots[1..], disabled, exec).executed
  {
    if !roots[0].requiredIsDir {
      assert [] + RequiredChecks(roots[1..], disabled, exec).executed == RequiredChecks(roots[1..], disabled, exec).executed;
    }
  }

  /** A listing yields an item named `name`. */
  ghost predicate Lists(listing: Listing, name: string) {
    listing.Matches? && exists e :: Some(e) in listing.items && e.fileName == Some(name)
  }

  lemma {:induction false} ListingSkipsAreListed(listing: Listing, disabled: seq<string>, name: string)
    requires name in ListingSkips(listing, disabled)
    ensures Lists(listing, name)
  {
    var es := Candidates(listing.items);
    var names := SkippedNames(es, Some(disabled));
    SkippedNamesPresent(es, Some(disabled));
    var k :| 0 <= k < |names| && names[k] == name;
    var e :| e in es && e.fileName == Some(name);
  }

  lemma {:induction false} OnDiskIsListed(roots: seq<Root>, disabled: seq<string>, name: string)
    requires name in DisabledOnDisk(roots, disabled)
    ensures exists k :: 0 <= k < |roots| && (Lists(roots[k].required, name) || Lists(roots[k].wanted, name))
    decreases |roots|
  {
    if name in DisabledOnDisk(roots[1..], disabled) {
      OnDiskIsListed(roots[1..], disabled, name);
      var k :| 0 <= k < |roots[1..]| && (Lists(roots[1..][k].required, name) || Lists(roots[1..][k].wanted, name));
      assert roots[1..][k] == roots[k + 1];
    } else if roots[0].requiredIsDir && name in ListingSkips(roots[0].required, disabled) {
      ListingSkipsAreListed(roots[0].required, disabled, name);
    } else {
      ListingSkipsAreListed(roots[0].wanted, disabled, name);
    }
  }

  /**
   * A disabled name that no required or wanted listing holds is reported
   * back among the missing names whenever diagnostics succeed.
   */
  lemma {:induction false} AbsentDisabledNameIsReported(roots: seq<Root>, disabled: seq<string>, exec: Invocation -> Outcome,
                                     name: string)
    requires name in disabled
    requires forall k :: 0 <= k < |roots| ==> !Lists(roots[k].required, name) && !Lists(roots[k].wanted, name)
    ensures var r := Diagnostics(roots, disabled, exec).result;
      r.Ok? ==> name in r.value && r.value <= SetOf(disabled)
  {
    DiagnosticsVerdict(roots, disabled, exec);
    if name in DisabledOnDisk(roots, disabled) {
      OnDiskIsListed(roots, disabled, name);
    }
    var k :| 0 <= k < |disabled| && disabled[k] == name;
  }

  /** Every candidate of the listing that would fail has a disabled name (or no UTF-8 name). */
  ghost predicate FailuresDisabled(listing: Listing, disabled: seq<string>, exec: Invocation -> Outcome) {
    && listing.Matches?
    && forall e :: (Some(e) in listing.items && IsCandidate(e) && e.fileName.Some?
                    && !exec(InvocationFor(e)).Success?) ==> e.fileName.value in disabled
  }

  /**
   * Disabling every failing required entry makes diagnostics succeed, whatever
   * the wanted tier does, provided some root has a required directory.
   */
  lemma {:induction false} DisabledFailuresPass(roots: seq<Root>, disabled: seq<string>, exec: Invocation -> Outcome)
    requires HasRequiredDir(roots)
    requires forall k :: 0 <= k < |roots| && roots[k].requiredIsDir ==> FailuresDisabled(roots[k].required, disabled, exec)
    ensures Diagnostics(roots, disabled, exec).result.Ok?
  {
    DiagnosticsVerdict(roots, disabled, exec);
    forall k | 0 <= k < |roots| ensures RequiredPasses(roots[k], disabled, exec) {
      if roots[k].requiredIsDir {
        var listing := roots[k].required;
        var es := Candidates(listing.items);
        var run := Runnable(es, Some(disabled));
        RequiredFailFast(es, Some(disabled), exec);
        RunnableEntries(es, Some(disabled));
        forall j | 0 <= j < |run| ensures exec(run[j]).Success? {
          var e := run[j].entry;
          assert e in es && run[j] == InvocationFor(e);
          assert Some(e) in listing.items && IsCandidate(e);
          assert e.fileName.Some? && e.fileName.value !in disabled;
        }
      }
    }
  }

  // ------------------------------------------------------------ hook tiers

  /** The red or green hooks over a list of directories: nothing is skipped. */
  function HookRun(tier: string, listings: seq<Listing>, exec: Invocation -> Outcome): TierRun
    decreases |listings|
  {
    if listings == [] then TierRun([], [], [])
    else
      var t := Run(tier, listings[0], None, exec);
      var rest := HookRun(tier, listings[1..], exec);
      TierRun(t.errors + rest.errors, [], t.executed + rest.executed)
  }

  lemma {:induction false} HookRunFrom(tier: string, listings: seq<Listing>, i: nat, exec: Invocation -> Outcome)
    requires i < |listings|
    ensures var t := Run(tier, listings[i], None, exec);
      HookRun(tier, listings[i..], exec)
      == Then(TierRun(t.errors, [], t.executed), HookRun(tier, listings[i + 1..], exec))
  {
    assert listings[i..][0] == listings[i];
    assert listings[i..][1..] == listings[i + 1..];
  }

  /** The loop shared by `run_red` and `run_green`: every directory's errors, concatenated. */
  method RunHooks(tier: string, listings: seq<Listing>, exec: Invocation -> Outcome)
    returns (errors: seq<ScriptError>, ghost executed: seq<Invocation>)
    ensures TierRun(errors, [], executed) == HookRun(tier, listings, exec)
  {
    errors := [];
    executed := [];
    for i := 0 to |listings|
      invariant Then(TierRun(errors, [], executed), HookRun(tier, listings[i..], exec)) == HookRun(tier, listings, exec)
    {
      HookRunFrom(tier, listings, i, exec);
      var result, ran := RunScripts(tier, listings[i], None, exec);
      ghost var part := TierRun(result.errors, [], ran);
      ThenAssoc(TierRun(errors, [], executed), part, HookRun(tier, listings[i + 1..], exec));
      errors := errors + result.errors;
      executed := executed + ran;
    }
  }

  /** `run_red`: the red.d hooks of every root. */
  method RunRed(roots: seq<Root>, exec: Invocation -> Outcome)
    returns (errors: seq<ScriptError>, ghost executed: seq<Invocation>)
    ensures TierRun(errors, [], executed) == HookRun("red", RedListings(roots), exec)
  {
    errors, executed := RunHooks("red", RedListings(roots), exec);
  }

  /** `run_green`: the green.d hooks of every root. */
  method RunGreen(roots: seq<Root>, exec: Invocation -> Outcome)
    returns (errors: seq<ScriptError>, ghost executed: seq<Invocation>)
    ensures TierRun(errors, [], executed) == HookRun("green", GreenListings(roots), exec)
  {
    errors, executed := RunHooks("green", GreenListings(roots), exec);
  }

  /** The `red.d` listing of every root, in root order. */
  function RedListings(roots: seq<Root>): seq<Listing> {
    seq(|roots|, k requires 0 <= k < |roots| => roots[k].red)
  }

  /** The `green.d` listing of every root, in root order. */
  function GreenListings(roots: seq<Root>): seq<Listing> {
    seq(|roots|, k requires 0 <= k < |roots| => roots[k].green)
  }

  /** The commands a listing yields when nothing is disabled. */
  function ListingRunnable(listing: Listing): seq<Invocation> {
    match listing
    case PatternError(_) => []
    case Matches(items) => Runnable(Candidates(items), None)
  }

  /** What a listing contributes to the error list of a hook tier. */
  function ListingErrors(tier: string, listing: Listing, exec: Invocation -> Outcome): seq<ScriptError> {
    match listing
    case PatternError(detail) => [GlobPattern(detail)]
    case Matches(items) => Failures(tier, Runnable(Candidates(items), None), exec)
  }

  /**
   * A hook tier never stops early and never skips: it starts every candidate
   * with a UTF-8 name in every directory, and its errors are each
   * directory's pattern error or the failures of the commands it started,
   * in order.
   */
  lemma {:induction false} HooksRunEverything(tier: string, listings: seq<Listing>, exec: Invocation -> Outcome)
    requires tier != Required
    ensures var h := HookRun(tier, listings, exec);
      && (listings == [] ==> h == TierRun([], [], []))
      && (listings != [] ==>
            && h.executed == ListingRunnable(listings[0]) + HookRun(tier, listings[1..], exec).executed
            && h.errors == ListingErrors(tier, listings[0], exec) + HookRun(tier, listings[1..], exec).errors)
    ensures forall k :: 0 <= k < |HookRun(tier, listings, exec).executed| ==>
      HookRun(tier, listings, exec).executed[k].entry.fileName.Some?
    decreases |listings|
  {
    if listings != [] {
      HooksRunEverything(tier, listings[1..], exec);
      match listings[0]
      case PatternError(_) =>
      case Matches(items) =>
        OtherTiersRunEverything(tier, Candidates(items), None, exec);
        RunnableEntries(Candidates(items), None);
      var h := HookRun(tier, listings, exec);
      var first := ListingRunnable(listings[0]);
      var rest := HookRun(tier, listings[1..], exec).executed;
      forall k | 0 <= k < |h.executed| ensures h.executed[k].entry.fileName.Some? {
        if k >= |first| { assert h.executed[k] == rest[k - |first|]; }
      }
    }
  }
}
