/** The legacy order-book recorder of the root binary: one SQLite file per
    calendar month, a packed `(year, month)` key that tells when to switch
    files, a buffer flushed every 70 rows, and a dump of the previous month
    launched whenever a month's file is created. Clock readings, whether the
    month's file already exists and the outcome of each event's conversion
    are inputs. */
module MonthlyRecorder {
  import opened Results
  import opened Text
  import opened IsoCalendar
  import WeeklyStorage

  /** A month number as `chrono` gives it. */
  type Month = m: nat | 1 <= m <= 12 witness 1

  datatype YearMonth = YearMonth(year: int, month: Month)

  const U32 := 0x1_0000_0000
  /** Years whose shifted value still fits the 32-bit key. */
  const YearLimit := 0x1000_0000

  /** `(year as u32) << 4 | (month & 0x0f)`. The cast wraps the year modulo
      2^32, the shift drops the bits pushed past bit 31, and the shifted value
      has its four low bits clear, so the OR adds the month. */
  function PackMonth(ym: YearMonth): (k: nat)
    ensures k < U32
    ensures k / 16 == ym.year % YearLimit && k % 16 == ym.month
  {
    ShiftedYear(ym.year);
    ((ym.year % U32) * 16) % U32 + ym.month % 16
  }

  /** The shifted year is 16 times the year reduced modulo 2^28. */
  lemma ShiftedYear(y: int)
    ensures ((y % U32) * 16) % U32 == 16 * (y % YearLimit)
  {
    var x := y % U32;
    var q := (x * 16) / U32;
    assert (x * 16) % U32 == 16 * (x - YearLimit * q);
    var r := y / U32;
    assert y == U32 * r + x;
    assert y == YearLimit * (16 * r + q) + (x - YearLimit * q);
  }

  /** No month packs to 0, the key the loop starts from. */
  lemma PackMonthNonZero(ym: YearMonth)
    ensures PackMonth(ym) != 0
  {
    assert PackMonth(ym) % 16 == ym.month;
  }

  /** A month whose year the key can hold. */
  predicate Packable(ym: YearMonth) {
    0 <= ym.year < YearLimit
  }

  /** The months in calendar order, numbered consecutively. */
  function MonthIndex(ym: YearMonth): int {
    12 * ym.year + ym.month - 1
  }

  lemma MonthIndexInjective(a: YearMonth, b: YearMonth)
    ensures MonthIndex(a) == MonthIndex(b) <==> a == b
  {
    if MonthIndex(a) == MonthIndex(b) {
      assert 12 * (a.year - b.year) == b.month - a.month;
    }
  }

  /** Within the years it can hold, the key tells months apart. */
  lemma PackMonthInjective(a: YearMonth, b: YearMonth)
    requires Packable(a) && Packable(b)
    ensures PackMonth(a) == PackMonth(b) <==> a == b
  {
    var ka, kb := PackMonth(a), PackMonth(b);
    assert ka == 16 * (ka / 16) + ka % 16;
    assert kb == 16 * (kb / 16) + kb % 16;
  }

  /** Within the years it can hold, the key orders months as the calendar
      does. */
  lemma PackMonthOrdered(a: YearMonth, b: YearMonth)
    requires Packable(a) && Packable(b)
    ensures PackMonth(a) <= PackMonth(b) <==> MonthIndex(a) <= MonthIndex(b)
  {
    var ka, kb := PackMonth(a), PackMonth(b);
    assert ka == 16 * a.year + a.month;
    assert kb == 16 * b.year + b.month;
  }

  /** The month before `ym`: December of the year before for January. */
  function PrevMonth(ym: YearMonth): (p: YearMonth)
    ensures MonthIndex(p) == MonthIndex(ym) - 1
  {
    if ym.month == 1 then YearMonth(ym.year - 1, 12) else YearMonth(ym.year, ym.month - 1)
  }

  /** The month before is the only month right before. */
  lemma PrevMonthUnique(ym: YearMonth, p: YearMonth)
    requires MonthIndex(p) + 1 == MonthIndex(ym)
    ensures p == PrevMonth(ym)
  {
    MonthIndexInjective(p, PrevMonth(ym));
  }

  // ---------------------------------------------------------------------
  // Files

  /** `crypto_{year}_{month:02}.db` */
  function MonthlyFileName(ym: YearMonth): string {
    "crypto_" + IntToDecimal(ym.year) + "_" + Pad2(ym.month) + ".db"
  }

  /** Different months (of non-negative years) get different files. */
  lemma MonthlyFileNameInjective(a: YearMonth, b: YearMonth)
    requires 0 <= a.year && 0 <= b.year
    ensures MonthlyFileName(a) == MonthlyFileName(b) <==> a == b
  {
    if MonthlyFileName(a) == MonthlyFileName(b) {
      var wa, wb := IsoWeek(a.year, a.month), IsoWeek(b.year, b.month);
      assert WeeklyStorage.WeeklyFileName(wa) == MonthlyFileName(a);
      assert WeeklyStorage.WeeklyFileName(wb) == MonthlyFileName(b);
      WeeklyStorage.WeeklyFileNameInjective(wa, wb);
    }
  }

  /** `connect_to_monthly_db`'s file for the month of the clock: the
      month's file name under `{dataFolder}/sqlitedata/current/`. */
  function MonthlyDbPath(dataFolder: string, now: YearMonth): (p: string)
    ensures |p| > |WeeklyStorage.CurrentDir(dataFolder)| + 1
    ensures p[..|WeeklyStorage.CurrentDir(dataFolder)| + 1] == dataFolder + "/sqlitedata/current/"
    ensures p[|WeeklyStorage.CurrentDir(dataFolder)| + 1..] == MonthlyFileName(now)
    ensures EndsWith(p, ".db")
  {
    var p := WeeklyStorage.CurrentDir(dataFolder) + "/" + MonthlyFileName(now);
    assert p[|p| - 3..] == ".db";
    p
  }

  /** Two months of non-negative years share a database file exactly when
      they are the same month. */
  lemma MonthlyDbPathInjective(dataFolder: string, a: YearMonth, b: YearMonth)
    requires 0 <= a.year && 0 <= b.year
    ensures MonthlyDbPath(dataFolder, a) == MonthlyDbPath(dataFolder, b) <==> a == b
  {
    var n := |WeeklyStorage.CurrentDir(dataFolder)| + 1;
    if MonthlyDbPath(dataFolder, a) == MonthlyDbPath(dataFolder, b) {
      assert MonthlyFileName(a) == MonthlyDbPath(dataFolder, a)[n..] == MonthlyDbPath(dataFolder, b)[n..] == MonthlyFileName(b);
      MonthlyFileNameInjective(a, b);
    }
  }

  /** `run_backup_script`'s command: the dump script, the data folder and
      the file of the month before the clock's. */
  function MonthlyBackupCommand(workdir: string, utils: string, now: YearMonth): (cmd: seq<string>)
    ensures |cmd| == 3 && cmd[2] == MonthlyFileName(PrevMonth(now))
    ensures cmd[0] == utils + "/dump_db.sh" && cmd[1] == workdir + "/sqlitedata"
  {
    [utils + "/dump_db.sh", workdir + "/sqlitedata", MonthlyFileName(PrevMonth(now))]
  }

  /** The dump targets the file of the month just before, and never the
      file of the month it runs in. */
  lemma BackupTargetsLastMonth(workdir: string, utils: string, now: YearMonth, last: YearMonth)
    requires MonthIndex(last) + 1 == MonthIndex(now)
    requires 0 <= last.year
    ensures MonthlyBackupCommand(workdir, utils, now)[2] == MonthlyFileName(last)
    ensures MonthlyBackupCommand(workdir, utils, now)[2] != MonthlyFileName(now)
  {
    PrevMonthUnique(now, last);
    MonthIndexInjective(last, now);
    MonthlyFileNameInjective(last, now);
  }

  // ---------------------------------------------------------------------
  // The main loop

  /** The streams the recorder subscribes to. */
  const Symbols: seq<string> := ["btcusdt", "ethusdt", "bnbusdt", "solusdt", "xrpusdt", "adausdt", "avaxusdt"]

  /** `SYMBOLS.len() * 10`, 70 rows for the seven symbols. The buffer is
      flushed when it reaches this size, so `Recorded` keeps it below. */
  const MaxBufferSize := |Symbols| * 10

  /** One `buffer.flush(conn)`: the rows written into the file of month
      `db`. */
  datatype Write<R> = Write(db: YearMonth, rows: seq<R>)

  /** What the websocket yields: something other than a text frame, a text
      that is not a combined event, or an event, with the clock's month when
      it was read, whether that month's file already existed (looked at only
      when the loop switches files) and the outcome of `to_insertable`. */
  datatype Incoming<R> =
    | NotText
    | Unparsed
    | Parsed(clock: YearMonth, fileExists: bool, insertable: Result<R>)

  /** The loop's state: `current_packed_month`, the month of `conn`, the
      buffer, and what it has caused: the writes into each month's file and
      the months whose dump was launched. */
  datatype Recorder<R> = Recorder(key: nat, conn: Option<YearMonth>, buffer: seq<R>,
                                  writes: seq<Write<R>>, dumped: seq<YearMonth>)

  /** The state before the first message. */
  function Initial<R>(): Recorder<R> {
    Recorder(0, None, [], [], [])
  }

  /** Switching to the clock's month: the buffer goes into the old file (when
      one is open), the month's file is opened, and a new file has the
      previous month dumped. */
  function Switched<R>(s: Recorder<R>, clock: YearMonth, fileExists: bool): Recorder<R> {
    Recorder(PackMonth(clock), Some(clock),
             if s.conn.Some? then [] else s.buffer,
             s.writes + (if s.conn.Some? then [Write(s.conn.value, s.buffer)] else []),
             s.dumped + (if fileExists then [] else [PrevMonth(clock)]))
  }

  /** Pushing a row, flushed with the buffer into the open file once the
      buffer holds `MaxBufferSize` rows. */
  function Pushed<R>(s: Recorder<R>, row: R): Recorder<R> {
    var b := s.buffer + [row];
    if |b| >= MaxBufferSize && s.conn.Some? then s.(buffer := [], writes := s.writes + [Write(s.conn.value, b)])
    else s.(buffer := b)
  }

  /** One turn of the `while let` loop. */
  function Next<R>(s: Recorder<R>, m: Incoming<R>): Recorder<R> {
    match m
    case NotText => s
    case Unparsed => s
    case Parsed(clock, fileExists, insertable) =>
      var t := if s.key != PackMonth(clock) then Switched(s, clock, fileExists) else s;
      if insertable.Err? then t else Pushed(t, insertable.value)
  }

  /** The state after the messages, in order. */
  function Replay<R>(s: Recorder<R>, messages: seq<Incoming<R>>): Recorder<R> {
    if messages == [] then s else Next(Replay(s, messages[..|messages| - 1]), messages[|messages| - 1])
  }

  /** The loop of `main` over the messages read before the stream ends. */
  method RecordMonthly<R>(messages: seq<Incoming<R>>)
    returns (currentPackedMonth: nat, conn: Option<YearMonth>, buffer: seq<R>,
             writes: seq<Write<R>>, dumped: seq<YearMonth>)
    ensures Recorder(currentPackedMonth, conn, buffer, writes, dumped) == Replay(Initial(), messages)
  {
    currentPackedMonth, conn, buffer, writes, dumped := 0, None, [], [], [];
    var i := 0;
    while i < |messages|
      invariant 0 <= i <= |messages|
      invariant Recorder(currentPackedMonth, conn, buffer, writes, dumped) == Replay(Initial(), messages[..i])
    {
      assert messages[..i + 1][..i] == messages[..i];
      match messages[i] {
        case NotText =>
        case Unparsed =>
        case Parsed(clock, fileExists, insertable) =>
          var thisPackedMonth := PackMonth(clock);
          if currentPackedMonth != thisPackedMonth {
            if conn.Some? {
              writes := writes + [Write(conn.value, buffer)];
              buffer := [];
            }
            if !fileExists {
              dumped := dumped + [PrevMonth(clock)];
            }
            conn := Some(clock);
            currentPackedMonth := thisPackedMonth;
          }
          if insertable.Ok? {
            buffer := buffer + [insertable.value];
            if |buffer| >= MaxBufferSize {
              if conn.Some? {
                writes := writes + [Write(conn.value, buffer)];
                buffer := [];
              }
            }
          }
      }
      i := i + 1;
    }
    assert messages[..i] == messages;
  }

  // ---------------------------------------------------------------------
  // What the loop keeps

  /** The rows `rows`, each labelled with key `k`. */
  function Tag<R>(rows: seq<R>, k: nat): (t: seq<(R, nat)>)
    ensures |t| == |rows| && forall i :: 0 <= i < |rows| ==> t[i] == (rows[i], k)
  {
    seq(|rows|, i requires 0 <= i < |rows| => (rows[i], k))
  }

  /** The written rows, write after write, each labelled with the key of
      the month of the file it went into. */
  function Tagged<R>(writes: seq<Write<R>>): seq<(R, nat)> {
    if writes == [] then []
    else
      var w := writes[|writes| - 1];
      Tagged(writes[..|writes| - 1]) + Tag(w.rows, PackMonth(w.db))
  }

  lemma TaggedAppend<R>(writes: seq<Write<R>>, w: Write<R>)
    ensures Tagged(writes + [w]) == Tagged(writes) + Tag(w.rows, PackMonth(w.db))
  {
    assert (writes + [w])[..|writes|] == writes;
  }

  /** The converted rows among `messages`, in order, each labelled with the
      key of the clock's month when it arrived. */
  function Filed<R>(messages: seq<Incoming<R>>): seq<(R, nat)> {
    if messages == [] then []
    else
      var m := messages[|messages| - 1];
      Filed(messages[..|messages| - 1]) + FiledOne(m)
  }

  function FiledOne<R>(m: Incoming<R>): seq<(R, nat)> {
    if m.Parsed? && m.insertable.Ok? then [(m.insertable.value, PackMonth(m.clock))] else []
  }

  /** The loop's invariant: a file is open exactly once the key is set, and
      the key is that file's month; the buffer stays below the threshold and
      holds nothing before a file is open; no write exceeds the threshold;
      and the written rows followed by the buffer are the converted rows,
      in order, each written into the file of a month with the key of the
      month it arrived in. */
  ghost predicate Recorded<R>(s: Recorder<R>, filed: seq<(R, nat)>) {
    (s.conn.None? <==> s.key == 0) &&
    (s.conn.Some? ==> s.key == PackMonth(s.conn.value)) &&
    (s.conn.None? ==> s.buffer == []) &&
    |s.buffer| < MaxBufferSize &&
    (forall i :: 0 <= i < |s.writes| ==> |s.writes[i].rows| <= MaxBufferSize) &&
    Tagged(s.writes) + Tag(s.buffer, s.key) == filed
  }

  lemma TagAppend<R>(rows: seq<R>, row: R, k: nat)
    ensures Tag(rows + [row], k) == Tag(rows, k) + [(row, k)]
  {
  }

  /** A switch keeps the invariant, now keyed by the clock's month. */
  lemma SwitchedRecorded<R>(s: Recorder<R>, filed: seq<(R, nat)>, clock: YearMonth, fileExists: bool)
    requires Recorded(s, filed)
    ensures var t := Switched(s, clock, fileExists);
      Recorded(t, filed) && t.key == PackMonth(clock) && t.conn == Some(clock)
  {
    var t := Switched(s, clock, fileExists);
    PackMonthNonZero(clock);
    if s.conn.Some? {
      TaggedAppend(s.writes, Write(s.conn.value, s.buffer));
      assert Tagged(t.writes) + Tag(t.buffer, t.key) == Tagged(s.writes) + Tag(s.buffer, s.key);
      forall i | 0 <= i < |t.writes|
        ensures |t.writes[i].rows| <= MaxBufferSize
      {
        if i < |s.writes| {
          assert t.writes[i] == s.writes[i];
        }
      }
    } else {
      assert t.writes == s.writes && t.buffer == [];
      assert Tag(t.buffer, t.key) == [] == Tag(s.buffer, s.key);
    }
  }

  /** A push keeps the invariant, the pushed row labelled with the key. */
  lemma PushedRecorded<R>(s: Recorder<R>, filed: seq<(R, nat)>, row: R)
    requires Recorded(s, filed) && s.conn.Some?
    ensures Recorded(Pushed(s, row), filed + [(row, s.key)])
  {
    var b := s.buffer + [row];
    TagAppend(s.buffer, row, s.key);
    if |b| >= MaxBufferSize {
      var t := Pushed(s, row);
      TaggedAppend(s.writes, Write(s.conn.value, b));
      assert Tagged(t.writes) + Tag(t.buffer, t.key) == Tagged(s.writes) + Tag(b, s.key);
      forall i | 0 <= i < |t.writes|
        ensures |t.writes[i].rows| <= MaxBufferSize
      {
        if i < |s.writes| {
          assert t.writes[i] == s.writes[i];
        }
      }
    }
  }

  /** One turn keeps the invariant, the event's converted row (if any)
      appended to what is filed. */
  lemma NextRecorded<R>(s: Recorder<R>, filed: seq<(R, nat)>, m: Incoming<R>)
    requires Recorded(s, filed)
    ensures Recorded(Next(s, m), filed + FiledOne(m))
  {
    if m.Parsed? {
      var t := if s.key != PackMonth(m.clock) then Switched(s, m.clock, m.fileExists) else s;
      if s.key != PackMonth(m.clock) {
        SwitchedRecorded(s, filed, m.clock, m.fileExists);
      } else {
        PackMonthNonZero(m.clock);
      }
      if m.insertable.Ok? {
        PushedRecorded(t, filed, m.insertable.value);
      } else {
        assert filed + FiledOne(m) == filed;
      }
    } else {
      assert filed + FiledOne(m) == filed;
    }
  }

  /** However the stream goes, no converted row is lost, duplicated or
      reordered: the writes followed by the buffer are the converted rows,
      and each went to a file of a month with the key of its arrival. */
  lemma {:induction false} ReplayRecorded<R>(messages: seq<Incoming<R>>)
    ensures Recorded(Replay(Initial(), messages), Filed(messages))
  {
    if messages != [] {
      var n := |messages| - 1;
      ReplayRecorded(messages[..n]);
      NextRecorded(Replay(Initial(), messages[..n]), Filed(messages[..n]), messages[n]);
    }
  }

  /** Every file written to is the file of the month its rows arrived in,
      for the years the key can hold. */
  lemma WrittenIntoArrivalMonth<R>(w: Write<R>, clock: YearMonth)
    requires Packable(w.db) && Packable(clock)
    requires PackMonth(w.db) == PackMonth(clock)
    ensures w.db == clock
  {
    PackMonthInjective(w.db, clock);
  }

  /** The first event opens a database, whatever its month: the initial key
      matches none. A new file has the previous month dumped; nothing is
      written yet. */
  lemma FirstEventOpens<R>(clock: YearMonth, fileExists: bool, insertable: Result<R>)
    ensures var s := Next(Initial(), Parsed(clock, fileExists, insertable));
      s.conn == Some(clock) && s.key == PackMonth(clock) && s.writes == [] &&
      s.dumped == (if fileExists then [] else [PrevMonth(clock)])
  {
    PackMonthNonZero(clock);
  }

  /** A change of key writes the buffer into the old file before switching
      to the clock's month; a file is dumped for exactly the new files. */
  lemma KeyChangeFlushesOldFile<R>(s: Recorder<R>, filed: seq<(R, nat)>, clock: YearMonth,
                                   fileExists: bool, insertable: Result<R>)
    requires Recorded(s, filed) && s.conn.Some?
    requires s.key != PackMonth(clock)
    ensures var t := Next(s, Parsed(clock, fileExists, insertable));
      t.conn == Some(clock) && t.key == PackMonth(clock) &&
      t.writes[..|s.writes| + 1] == s.writes + [Write(s.conn.value, s.buffer)] &&
      t.dumped == s.dumped + (if fileExists then [] else [PrevMonth(clock)])
  {
    var u := Switched(s, clock, fileExists);
    assert |u.buffer| < MaxBufferSize;
    if insertable.Ok? {
      var t := Pushed(u, insertable.value);
      assert t.writes[..|s.writes| + 1] == u.writes;
    }
  }

  /** Within one key nothing switches: the file stays open, nothing is
      dumped, and a row is either buffered or, at the threshold, written
      with the buffer into the same file. */
  lemma SameKeyStays<R>(s: Recorder<R>, filed: seq<(R, nat)>, clock: YearMonth, fileExists: bool, row: R)
    requires Recorded(s, filed)
    requires s.key == PackMonth(clock)
    ensures var t := Next(s, Parsed(clock, fileExists, Ok(row)));
      t.conn == s.conn && t.key == s.key && t.dumped == s.dumped &&
      (|s.buffer| + 1 < MaxBufferSize ==> t.buffer == s.buffer + [row] && t.writes == s.writes) &&
      (|s.buffer| + 1 == MaxBufferSize ==> t.buffer == [] && t.writes == s.writes + [Write(s.conn.value, s.buffer + [row])])
  {
    PackMonthNonZero(clock);
  }

  /** Across any stream, a dump is launched for each event that switched
      to a month whose file did not exist yet, and for nothing else. */
  lemma DumpsOnlyNewFiles<R>(s: Recorder<R>, m: Incoming<R>)
    ensures Next(s, m).dumped ==
      s.dumped + (if m.Parsed? && s.key != PackMonth(m.clock) && !m.fileExists then [PrevMonth(m.clock)] else [])
  {
  }

  /** An event whose conversion fails adds no row: it changes at most what
      the switch to its month changes. */
  lemma FailedConversionSkipped<R>(s: Recorder<R>, clock: YearMonth, fileExists: bool, error: string)
    ensures var t := Next(s, Parsed(clock, fileExists, Err(error)));
      t == (if s.key != PackMonth(clock) then Switched(s, clock, fileExists) else s)
    ensures FiledOne<R>(Parsed(clock, fileExists, Err(error))) == []
  {
  }
}
