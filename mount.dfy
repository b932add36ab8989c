/**
 * The boot-partition mount guard of src/handler/mount.rs: the read-write
 * test `is_boot_rw` over the text of the mount table, and the idempotent
 * remounts `remount_boot_ro` and `remount_boot_rw` that set the process-wide
 * `BOOT_WAS_RO` flag.
 *
 * Reading `/proc/mounts` and the `mount(2)` call are oracles: each remount
 * takes the table text it reads (or `None` when it cannot be read) and the
 * result the system call would give.
 */
module Mount {
  import opened Results
  import opened Text

  /** The errors of the mount guard. */
  datatype MountError = RemountFailed(detail: string) | MountInfoError {
    function Message(): string {
      match this
      case RemountFailed(detail) => "Failed to remount /boot: " + detail
      case MountInfoError => "Failed to read mount info"
    }
  }

  // ------------------------------------------------------------ is_boot_rw

  /** A mount-table line whose second whitespace-separated field is `/boot`. */
  predicate IsBootLine(line: string) {
    var fields := SplitWhitespace(line);
    |fields| > 1 && fields[1] == "/boot"
  }

  /** The fourth field of a line (the mount options), or `""` when the line is shorter. */
  function OptionsField(line: string): string {
    var fields := SplitWhitespace(line);
    if |fields| > 3 then fields[3] else ""
  }

  /** The raw substring test on the options: "rw" occurs and "ro" does not. */
  predicate OptionsReadWrite(options: string) {
    Contains(options, "rw") && !Contains(options, "ro")
  }

  /** The scan of `is_boot_rw`: the first `/boot` line decides. */
  function BootRwInLines(lines: seq<string>): (r: Result<bool, MountError>)
    ensures r.Err? ==> r == Err(MountInfoError)
    decreases |lines|
  {
    if lines == [] then Err(MountInfoError)
    else if IsBootLine(lines[0]) then Ok(OptionsReadWrite(OptionsField(lines[0])))
    else BootRwInLines(lines[1..])
  }

  /** `is_boot_rw`, given the text of the mount table or `None` when it cannot be read. */
  function IsBootRw(mounts: Option<string>): (r: Result<bool, MountError>)
    ensures mounts.None? ==> r == Err(MountInfoError)
    ensures r.Err? ==> r == Err(MountInfoError)
  {
    match mounts
    case None => Err(MountInfoError)
    case Some(text) => BootRwInLines(Lines(text))
  }

  // ------------------------------------------------ properties of is_boot_rw

  /** The first `/boot` line, and only it, gives the verdict. */
  lemma {:induction false} FirstBootLineDecides(lines: seq<string>, k: nat)
    requires k < |lines| && IsBootLine(lines[k])
    requires forall j :: 0 <= j < k ==> !IsBootLine(lines[j])
    ensures BootRwInLines(lines) == Ok(OptionsReadWrite(OptionsField(lines[k])))
    decreases k
  {
    if k > 0 {
      assert forall j :: 0 <= j < k - 1 ==> lines[1..][j] == lines[j + 1];
      FirstBootLineDecides(lines[1..], k - 1);
    }
  }

  /** The scan fails, always with `MountInfoError`, exactly when no line is a `/boot` line. */
  lemma {:induction false} NoBootLineIsError(lines: seq<string>)
    ensures BootRwInLines(lines).Err? <==> forall j :: 0 <= j < |lines| ==> !IsBootLine(lines[j])
    ensures BootRwInLines(lines).Err? ==> BootRwInLines(lines) == Err(MountInfoError)
    decreases |lines|
  {
    if lines != [] {
      NoBootLineIsError(lines[1..]);
      assert forall j :: 1 <= j < |lines| ==> lines[j] == lines[1..][j - 1];
    }
  }

  /** Once a `/boot` line has been seen, later lines do not matter. */
  lemma {:induction false} LaterLinesIgnored(lines: seq<string>, more: seq<string>)
    requires exists j :: 0 <= j < |lines| && IsBootLine(lines[j])
    ensures BootRwInLines(lines + more) == BootRwInLines(lines)
    decreases |lines|
  {
    assert (lines + more)[0] == lines[0];
    if !IsBootLine(lines[0]) {
      var j :| 0 <= j < |lines| && IsBootLine(lines[j]);
      assert lines[1..][j - 1] == lines[j];
      assert (lines + more)[1..] == lines[1..] + more;
      LaterLinesIgnored(lines[1..], more);
    }
  }

  /**
   * The same at the level of the table text: appending lines after a
   * complete line that is a `/boot` line leaves the verdict as it was.
   */
  lemma {:induction false} LaterTextIgnored(text: string, more: string)
    requires text == [] || text[|text| - 1] == '\n'
    requires exists j :: 0 <= j < |Lines(text)| && IsBootLine(Lines(text)[j])
    ensures IsBootRw(Some(text + more)) == IsBootRw(Some(text))
  {
    LinesAppend(text, more);
    LaterLinesIgnored(Lines(text), Lines(more));
  }

  /** A first `/boot` line with fewer than four fields reads as not read-write. */
  lemma {:induction false} ShortBootLineIsNotRw(lines: seq<string>, k: nat)
    requires k < |lines| && IsBootLine(lines[k]) && |SplitWhitespace(lines[k])| < 4
    requires forall j :: 0 <= j < k ==> !IsBootLine(lines[j])
    ensures BootRwInLines(lines) == Ok(false)
  {
    FirstBootLineDecides(lines, k);
  }

  /** Any options string with "ro" anywhere in it reads as not read-write. */
  lemma {:induction false} RoAnywhereIsNotRw(before: string, after: string)
    ensures !OptionsReadWrite(before + "ro" + after)
  {
    var options := before + "ro" + after;
    ContainsIff(options, "ro");
    assert options[|before|..|before| + 2] == "ro";
    assert OccursAt(options, "ro", |before|);
  }

  /** The substring test is not token-aware: `errors=remount-ro` makes an `rw` mount read as read-only. */
  lemma {:induction false} RemountRoOptionReadsReadOnly()
    ensures !OptionsReadWrite("rw,errors=remount-ro")
  {
    RoAnywhereIsNotRw("rw,errors=remount-", "");
    assert "rw,errors=remount-" + "ro" + "" == "rw,errors=remount-ro";
  }

  /** One table line, given by its fields, is split back into those fields. */
  lemma {:induction false} TableLine(fields: seq<string>)
    requires forall k :: 0 <= k < |fields| ==> IsToken(fields[k])
    ensures Lines(JoinSpaces(fields) + "\n") == [JoinSpaces(fields)]
    ensures SplitWhitespace(JoinSpaces(fields)) == fields
  {
    SplitJoin(fields);
    JoinSpacesBlankFree(fields);
    var l := JoinSpaces(fields);
    assert forall j :: 0 <= j < |l| ==> l[j] != '\n' by {
      forall j | 0 <= j < |l| ensures l[j] != '\n' {
        assert l[j] == ' ' || !IsWhitespace(l[j]);
      }
    }
    LinesOfLine(l);
    assert l != [] ==> l[|l| - 1] != '\r' by {
      if l != [] { assert l[|l| - 1] == ' ' || !IsWhitespace(l[|l| - 1]); }
    }
  }

  /**
   * A table of a non-`/boot` line followed by a `/boot` line with at least
   * four fields reads as the options of that `/boot` line say.
   */
  lemma {:induction false} BootLineAfterOther(other: seq<string>, boot: seq<string>)
    requires forall k :: 0 <= k < |other| ==> IsToken(other[k])
    requires forall k :: 0 <= k < |boot| ==> IsToken(boot[k])
    requires !(|other| > 1 && other[1] == "/boot")
    requires |boot| > 3 && boot[1] == "/boot"
    ensures IsBootRw(Some(JoinSpaces(other) + "\n" + (JoinSpaces(boot) + "\n"))) == Ok(OptionsReadWrite(boot[3]))
  {
    var l1, l2 := JoinSpaces(other), JoinSpaces(boot);
    var lines := [l1, l2];
    assert Lines(l1 + "\n" + (l2 + "\n")) == lines by {
      TableLine(other);
      TableLine(boot);
      LinesAppend(l1 + "\n", l2 + "\n");
    }
    assert !IsBootLine(l1) && IsBootLine(l2) && OptionsField(l2) == boot[3] by {
      SplitJoin(other);
      SplitJoin(boot);
    }
    FirstBootLineDecides(lines, 1);
  }

  // ------------------------------------------------------------- remounts

  /** The flags of a `mount(2)` request on `/boot`. */
  datatype MountRequest =
    | ReadOnlyRemount  // MS_REMOUNT | MS_RDONLY
    | BindRemount      // MS_REMOUNT | MS_BIND

  /**
   * The process-wide state the remounts touch: the `BOOT_WAS_RO` flag and the
   * `mount(2)` requests issued so far.
   */
  class MountGuard {
    var bootWasRo: bool
    var requests: seq<MountRequest>

    /** The flag starts false and nothing has been requested. */
    constructor ()
      ensures !bootWasRo && requests == []
    {
      bootWasRo := false;
      requests := [];
    }

    /**
     * `remount_boot_ro`: when `/boot` reads as read-write, request a
     * read-only remount and set the flag if it succeeds; when it already
     * reads as read-only, do nothing; when the table cannot be read or has
     * no `/boot` line, fail without a request.
     */
    method RemountBootRo(mounts: Option<string>, syscall: Result<(), string>) returns (r: Result<(), MountError>)
      modifies this
      ensures old(bootWasRo) ==> bootWasRo
      ensures IsBootRw(mounts).Err? ==>
        r == Err(IsBootRw(mounts).error) && bootWasRo == old(bootWasRo) && requests == old(requests)
      ensures IsBootRw(mounts) == Ok(false) ==>
        r == Ok(()) && bootWasRo == old(bootWasRo) && requests == old(requests)
      ensures IsBootRw(mounts) == Ok(true) ==>
        && requests == old(requests) + [ReadOnlyRemount]
        && (syscall.Ok? ==> r == Ok(()) && bootWasRo)
        && (syscall.Err? ==> r == Err(RemountFailed(syscall.error)) && bootWasRo == old(bootWasRo))
    {
      var rw := IsBootRw(mounts);
      if rw.Err? {
        return Err(rw.error);
      }
      if rw.value {
        requests := requests + [ReadOnlyRemount];
        if syscall.Err? {
          return Err(RemountFailed(syscall.error));
        }
        bootWasRo := true;
        r := Ok(());
      } else {
        r := Ok(());
      }
    }

    /**
     * `remount_boot_rw`: the mirror image, with a bind remount; it too sets
     * the flag to true on success.
     */
    method RemountBootRw(mounts: Option<string>, syscall: Result<(), string>) returns (r: Result<(), MountError>)
      modifies this
      ensures old(bootWasRo) ==> bootWasRo
      ensures IsBootRw(mounts).Err? ==>
        r == Err(IsBootRw(mounts).error) && bootWasRo == old(bootWasRo) && requests == old(requests)
      ensures IsBootRw(mounts) == Ok(true) ==>
        r == Ok(()) && bootWasRo == old(bootWasRo) && requests == old(requests)
      ensures IsBootRw(mounts) == Ok(false) ==>
        && requests == old(requests) + [BindRemount]
        && (syscall.Ok? ==> r == Ok(()) && bootWasRo)
        && (syscall.Err? ==> r == Err(RemountFailed(syscall.error)) && bootWasRo == old(bootWasRo))
    {
      var rw := IsBootRw(mounts);
      if rw.Err? {
        return Err(rw.error);
      }
      if !rw.value {
        requests := requests + [BindRemount];
        if syscall.Err? {
          return Err(RemountFailed(syscall.error));
        }
        bootWasRo := true;
        r := Ok(());
      } else {
        r := Ok(());
      }
    }
  }
}
