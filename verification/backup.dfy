/** The weekly backup: the exit codes of `dump_db.sh` and their errors, the
    file the backup targets, and the one-shot actor that runs the script and
    reports back to the supervisor. */
module Backup {
  import opened Actors
  import opened Results
  import opened Text
  import opened IsoCalendar
  import WeeklyStorage

  /** `BackupScriptError`: one variant per documented exit code of the script. */
  datatype BackupScriptError =
    | UsageError
    | DependencyMissing
    | DirNotFound
    | FileNotFound
    | DumpFailed
    | CompressFailed
    | UploadFailed
    | MoveFailed
    | Unknown(code: int)

  /** The exit code a variant stands for: the number its message shows. */
  function CodeOf(e: BackupScriptError): int {
    match e
    case UsageError => 1
    case DependencyMissing => 2
    case DirNotFound => 3
    case FileNotFound => 4
    case DumpFailed => 5
    case CompressFailed => 6
    case UploadFailed => 7
    case MoveFailed => 8
    case Unknown(c) => c
  }

  /** `From<i32> for BackupScriptError`: total, with every code outside 1..8
      kept inside `Unknown`. */
  function FromCode(code: int): (e: BackupScriptError)
    ensures CodeOf(e) == code
    ensures e.Unknown? <==> !(1 <= code <= 8)
  {
    match code
    case 1 => UsageError
    case 2 => DependencyMissing
    case 3 => DirNotFound
    case 4 => FileNotFound
    case 5 => DumpFailed
    case 6 => CompressFailed
    case 7 => UploadFailed
    case 8 => MoveFailed
    case c => Unknown(c)
  }

  /** Distinct exit codes give distinct errors. */
  lemma FromCodeInjective(a: int, b: int)
    requires FromCode(a) == FromCode(b)
    ensures a == b
  {
    assert CodeOf(FromCode(a)) == a && CodeOf(FromCode(b)) == b;
  }

  /** Every error the script can be reported with comes from its own code;
      `Unknown` never holds a documented code. */
  lemma CodeOfRoundTrip(e: BackupScriptError)
    requires e.Unknown? ==> !(1 <= e.code <= 8)
    ensures FromCode(CodeOf(e)) == e
  {
  }

  /** "(Code N)" */
  function CodeTag(code: int): string {
    "(Code " + IntToDecimal(code) + ")"
  }

  /** The `Display` text of each variant, as its `#[error]` attribute spells
      it (cut before and after the "(Code N)" part); only `Unknown` formats
      its code. */
  function Message(e: BackupScriptError): string {
    match e
    case UsageError => "Usage Error " + "(Code 1)" + ": Incorrect arguments passed to script"
    case DependencyMissing => "Dependency Missing " + "(Code 2)" + ": Host is missing sqlite3, zstd, or rclone"
    case DirNotFound => "Directory Not Found " + "(Code 3)" + ": Working directory invalid"
    case FileNotFound => "File Not Found " + "(Code 4)" + ": Database file missing"
    case DumpFailed => "Dump Failed " + "(Code 5)" + ": sqlite3 .dump command failed"
    case CompressFailed => "Compression Failed " + "(Code 6)" + ": zstd compression failed"
    case UploadFailed => "Upload Failed " + "(Code 7)" + ": rclone copy failed"
    case MoveFailed => "Move Failed " + "(Code 8)" + ": Failed to archive original DB"
    case Unknown(c) => "Unknown Script Error " + ("(Code " + IntToDecimal(c) + ")") + ": The script crashed with an unhandled exit code"
  }

  /** The "(Code N)" in each message is the code that maps to the variant:
      the literal texts of the eight documented codes agree with `From`. */
  lemma MessageShowsCode(code: int)
    ensures Contains(Message(FromCode(code)), CodeTag(code))
  {
    var e := FromCode(code);
    if 1 <= code <= 8 {
      DocumentedTag(code);
    }
    match e
    case UsageError =>
      ContainsMiddle("Usage Error ", CodeTag(code), ": Incorrect arguments passed to script");
    case DependencyMissing =>
      ContainsMiddle("Dependency Missing ", CodeTag(code), ": Host is missing sqlite3, zstd, or rclone");
    case DirNotFound =>
      ContainsMiddle("Directory Not Found ", CodeTag(code), ": Working directory invalid");
    case FileNotFound =>
      ContainsMiddle("File Not Found ", CodeTag(code), ": Database file missing");
    case DumpFailed =>
      ContainsMiddle("Dump Failed ", CodeTag(code), ": sqlite3 .dump command failed");
    case CompressFailed =>
      ContainsMiddle("Compression Failed ", CodeTag(code), ": zstd compression failed");
    case UploadFailed =>
      ContainsMiddle("Upload Failed ", CodeTag(code), ": rclone copy failed");
    case MoveFailed =>
      ContainsMiddle("Move Failed ", CodeTag(code), ": Failed to archive original DB");
    case Unknown(c) =>
      ContainsMiddle("Unknown Script Error ", CodeTag(code), ": The script crashed with an unhandled exit code");
  }

  /** The tag of a documented code is the literal its message shows. */
  lemma DocumentedTag(code: int)
    requires 1 <= code <= 8
    ensures CodeTag(code) == ["(Code 1)", "(Code 2)", "(Code 3)", "(Code 4)",
                              "(Code 5)", "(Code 6)", "(Code 7)", "(Code 8)"][code - 1]
  {
    var digit := DigitChar(code);
    assert IntToDecimal(code) == NatToDecimal(code) == [digit];
    assert digit == "12345678"[code - 1];
  }

  // ---------------------------------------------------------------------
  // The target file

  /** The file the backup archives: `crypto_{prev_year}_{prev_week:02}.db`
      for the ISO week of one week before `now`. */
  function BackupTarget(now: int): string {
    WeeklyStorage.WeeklyFileName(PreviousWeekComponents(now))
  }

  /** The script and its arguments: the data folder and the target file. */
  function BackupCommand(workdir: string, utils: string, now: int): (cmd: seq<string>)
    ensures |cmd| == 3 && cmd[2] == BackupTarget(now)
  {
    [utils + "/dump_db.sh", workdir + "/sqlitedata", BackupTarget(now)]
  }

  /** The target is the file the pool opened at any instant of the
      Monday-to-Sunday week before `now`'s week. */
  lemma BackupTargetIsLastWeeksFile(now: int, earlier: int)
    requires DayOf(earlier) - Weekday(DayOf(earlier)) == DayOf(now) - Weekday(DayOf(now)) - 7
    ensures BackupTarget(now) == WeeklyStorage.WeeklyFileName(DateComponents(earlier))
  {
    DayOfMinusWeek(now);
    PreviousWeekIsLastWeek(DayOf(now), DayOf(earlier));
  }

  /** The backup never targets the file of the week it runs in. */
  lemma BackupTargetIsNotCurrentFile(now: int)
    requires 0 <= PreviousWeekComponents(now).year
    ensures BackupTarget(now) != WeeklyStorage.WeeklyFileName(DateComponents(now))
  {
    DayOfMinusWeek(now);
    PreviousWeek(DayOf(now));
    if BackupTarget(now) == WeeklyStorage.WeeklyFileName(DateComponents(now)) {
      WeeklyStorage.WeeklyFileNameInjective(PreviousWeekComponents(now), DateComponents(now));
    }
  }

  // ---------------------------------------------------------------------
  // The one-shot actor

  /** What running the script gave: it could not be started, or it exited
      with a status code (none when a signal ended it). */
  datatype ScriptRun = LaunchFailed(reason: string) | Exited(code: Option<int>)

  /** `output.status.success()` */
  predicate Succeeded(run: ScriptRun) {
    run.Exited? && run.code == Some(0)
  }

  /** `output.status.code().unwrap_or(-1)` */
  function ExitCode(code: Option<int>): int {
    if code.Some? then code.value else -1
  }

  /** `BackupOneShotActor::name()`: a one-shot actor, never restarted. */
  const BackupKind := Dynamic

  /** `BackupOneShotActor`: its id, whether its heartbeat task still runs,
      the command it ran, and the messages it delivered to the supervisor. */
  class BackupOneShotActor {
    const id: ActorId
    var heartbeat: bool
    var command: seq<string>
    var outbox: seq<ControlMessage>

    /** `BackupOneShotActor::new()`, with the fresh UUID passed in. */
    constructor (id: ActorId)
      ensures this.id == id && !heartbeat && command == [] && outbox == []
    {
      this.id := id;
      heartbeat := false;
      command := [];
      outbox := [];
    }

    /** `run`: start the heartbeat, run the script on last week's file and
        report. `run` is what the command gave; `delivered` says whether the
        supervisor channel accepted the `Shutdown`. */
    method Run(now: int, workdir: string, utils: string, run: ScriptRun, delivered: bool)
      returns (r: Result<()>)
      modifies this
      ensures command == BackupCommand(workdir, utils, now)
      ensures Succeeded(run) ==>
        r == Ok(()) && outbox == old(outbox) + (if delivered then [Shutdown(id)] else []) &&
        heartbeat == delivered
      ensures run.Exited? && !Succeeded(run) ==>
        r == Err(Message(FromCode(ExitCode(run.code)))) && outbox == old(outbox) && !heartbeat
      ensures run.LaunchFailed? ==>
        r == Err("Failed to execute command: " + run.reason) && outbox == old(outbox) && heartbeat
    {
      heartbeat := true;
      command := BackupCommand(workdir, utils, now);
      match run {
        case LaunchFailed(reason) =>
          return Err("Failed to execute command: " + reason);
        case Exited(code) =>
          if code != Some(0) {
            var error := FromCode(ExitCode(code));
            heartbeat := false;
            return Err(Message(error));
          }
      }
      if delivered {
        outbox := outbox + [Shutdown(id)];
      } else {
        heartbeat := false;
      }
      r := Ok(());
    }
  }
}
