/** The weekly rotating SQLite pool of the storage crate: a `(packed week,
    pool)` cell that `get` swaps when the ISO week changes, asking the
    supervisor to spawn a one-shot backup actor for the week just closed. */
module WeeklyStorage {
  import opened Actors
  import opened Results
  import opened Text
  import opened IsoCalendar

  const U32 := 0x1_0000_0000
  /** Years whose shifted value still fits the 32-bit key. */
  const YearLimit := 0x400_0000

  /** `(year as u32) << 6 | (week & 0x3f)`. The cast wraps the year modulo
      2^32, the shift drops the bits pushed past bit 31, and since the shifted
      value has its six low bits clear the OR adds the masked week. */
  function PackWeek(w: IsoWeek): (k: nat)
    ensures k < U32
    ensures k / 64 == w.year % YearLimit && k % 64 == w.week % 64
  {
    ShiftedYear(w.year);
    ((w.year % U32) * 64) % U32 + w.week % 64
  }

  /** The shifted year is 64 times the year reduced modulo 2^26. */
  lemma ShiftedYear(y: int)
    ensures ((y % U32) * 64) % U32 == 64 * (y % YearLimit)
  {
    var x := y % U32;
    var q := (x * 64) / U32;
    assert (x * 64) % U32 == 64 * (x - YearLimit * q);
    var r := y / U32;
    assert y == U32 * r + x;
    assert y == YearLimit * (64 * r + q) + (x - YearLimit * q);
  }

  /** A week whose fields fit the key: a year below 2^26 and a week below 64
      (every ISO week is at most 53). */
  predicate Packable(w: IsoWeek) {
    0 <= w.year < YearLimit && w.week < 64
  }

  /** For a packable week the key is plain `64 * year + week`. */
  lemma PackWeekPackable(w: IsoWeek)
    requires Packable(w)
    ensures PackWeek(w) == 64 * w.year + w.week
  {
    var k := PackWeek(w);
    assert k == 64 * (k / 64) + k % 64;
  }

  lemma PackWeekInjective(a: IsoWeek, b: IsoWeek)
    requires Packable(a) && Packable(b)
    ensures PackWeek(a) == PackWeek(b) <==> a == b
  {
    PackWeekPackable(a);
    PackWeekPackable(b);
  }

  /** The key orders weeks as the calendar does. */
  lemma PackWeekOrdered(a: IsoWeek, b: IsoWeek)
    requires Packable(a) && Packable(b)
    ensures PackWeek(a) <= PackWeek(b) <==> NotAfter(a, b)
  {
    PackWeekPackable(a);
    PackWeekPackable(b);
  }

  /** `RotatingPool::current_packed`, with the clock passed in: the low six
      bits hold the ISO week of `now`, the bits above them its ISO year
      reduced to what a 32-bit key keeps. */
  function CurrentPacked(now: int): (k: nat)
    ensures k < U32
    ensures k % 64 == DateComponents(now).week
    ensures k / 64 == DateComponents(now).year % YearLimit
  {
    PackWeek(DateComponents(now))
  }

  /** Within the years the key can hold, two instants share a key exactly
      when they share an ISO week. */
  lemma SameKeyIffSameWeek(t1: int, t2: int)
    requires Packable(DateComponents(t1)) && Packable(DateComponents(t2))
    ensures CurrentPacked(t1) == CurrentPacked(t2) <==> DateComponents(t1) == DateComponents(t2)
  {
    PackWeekInjective(DateComponents(t1), DateComponents(t2));
  }

  /** The key never goes backwards as time goes forwards. */
  lemma KeyAdvances(t1: int, t2: int)
    requires t1 <= t2
    requires Packable(DateComponents(t1)) && Packable(DateComponents(t2))
    ensures CurrentPacked(t1) <= CurrentPacked(t2)
  {
    assert DayOf(t1) <= DayOf(t2);
    IsoWeekMonotone(DayOf(t1), DayOf(t2));
    PackWeekOrdered(DateComponents(t1), DateComponents(t2));
  }

  // ---------------------------------------------------------------------
  // File names

  /** `crypto_{year}_{week:02}.db` */
  function WeeklyFileName(w: IsoWeek): string {
    "crypto_" + IntToDecimal(w.year) + "_" + Pad2(w.week) + ".db"
  }

  /** The directory `get_weekly_pool` creates and opens the file in. */
  function CurrentDir(dataFolder: string): string {
    dataFolder + "/sqlitedata/current"
  }

  /** The database file opened for the week of `now`: the week's file name
      under `{dataFolder}/sqlitedata/current/`. */
  function WeeklyDbPath(dataFolder: string, now: int): (p: string)
    ensures |p| > |CurrentDir(dataFolder)| + 1
    ensures p[..|CurrentDir(dataFolder)| + 1] == dataFolder + "/sqlitedata/current/"
    ensures p[|CurrentDir(dataFolder)| + 1..] == WeeklyFileName(DateComponents(now))
    ensures EndsWith(p, ".db")
  {
    var p := CurrentDir(dataFolder) + "/" + WeeklyFileName(DateComponents(now));
    assert p[|p| - 3..] == ".db";
    p
  }

  /** Two instants of non-negative ISO years open the same weekly file
      exactly when they fall in the same ISO week: no two weeks share a
      database. */
  lemma WeeklyDbPathInjective(dataFolder: string, t1: int, t2: int)
    requires 0 <= DateComponents(t1).year && 0 <= DateComponents(t2).year
    ensures WeeklyDbPath(dataFolder, t1) == WeeklyDbPath(dataFolder, t2) <==> DateComponents(t1) == DateComponents(t2)
  {
    var a, b := DateComponents(t1), DateComponents(t2);
    var n := |CurrentDir(dataFolder)| + 1;
    if WeeklyDbPath(dataFolder, t1) == WeeklyDbPath(dataFolder, t2) {
      assert WeeklyFileName(a) == WeeklyDbPath(dataFolder, t1)[n..] == WeeklyDbPath(dataFolder, t2)[n..] == WeeklyFileName(b);
      WeeklyFileNameInjective(a, b);
    }
  }

  /** Different weeks (of non-negative years) get different files. */
  lemma WeeklyFileNameInjective(a: IsoWeek, b: IsoWeek)
    requires 0 <= a.year && 0 <= b.year && a.week < 100 && b.week < 100
    requires WeeklyFileName(a) == WeeklyFileName(b)
    ensures a == b
  {
    var ya, yb := NatToDecimal(a.year), NatToDecimal(b.year);
    var wa, wb := Pad2(a.week), Pad2(b.week);
    Pad2Facts(a.week);
    Pad2Facts(b.week);
    var n := WeeklyFileName(a);
    assert n == "crypto_" + ya + ("_" + wa + ".db") == "crypto_" + yb + ("_" + wb + ".db");
    assert |ya| == |yb|;
    MiddleOf("crypto_", ya, "_" + wa + ".db");
    MiddleOf("crypto_", yb, "_" + wb + ".db");
    assert ya == yb;
    assert n == ("crypto_" + ya + "_") + wa + ".db" == ("crypto_" + yb + "_") + wb + ".db";
    MiddleOf("crypto_" + ya + "_", wa, ".db");
    MiddleOf("crypto_" + yb + "_", wb, ".db");
    NatToDecimalInjective(a.year, b.year);
  }

  /** The middle part of a three-part concatenation is found at its offset. */
  lemma MiddleOf(x: string, y: string, z: string)
    ensures (x + y + z)[|x|..|x| + |y|] == y
  {
  }

  // ---------------------------------------------------------------------
  // The pool cell

  /** An opened `SqlitePool`, known by the connection it stands for. */
  type PoolId = nat

  /** The read-lock fast path of `get`, the same in both pools: the stored
      pool exactly when the stored key is the current week's key. */
  function FastPath(key: nat, pool: PoolId, now: int): (r: Option<PoolId>)
    ensures r.Some? <==> key == CurrentPacked(now)
    ensures r.Some? ==> r.value == pool
  {
    if key == CurrentPacked(now) then Some(pool) else None
  }

  /** `RotatingPool`: the locked `(packed, pool)` cell and the messages sent
      on the supervisor channel. `rotations` records the keys the cell has
      held, oldest first. */
  class RotatingPool {
    const dataFolder: string
    var key: nat
    var pool: PoolId
    var outbox: seq<ControlMessage>
    ghost var rotations: seq<nat>

    /** The cell holds the last recorded key, consecutive keys differ, and
        every message sent is a `Spawn`, at most one per key change. */
    ghost predicate Valid()
      reads this
    {
      |rotations| >= 1 && rotations[|rotations| - 1] == key &&
      (forall i :: 0 < i < |rotations| ==> rotations[i - 1] != rotations[i]) &&
      (forall i :: 0 <= i < |outbox| ==> outbox[i].Spawn?) &&
      |outbox| <= |rotations| - 1
    }

    /** The cell as `RotatingPool::new` leaves it once the first pool opened. */
    constructor (dataFolder: string, now: int, first: PoolId)
      ensures this.dataFolder == dataFolder
      ensures key == CurrentPacked(now) && pool == first && outbox == []
      ensures Valid()
    {
      this.dataFolder := dataFolder;
      key := CurrentPacked(now);
      pool := first;
      outbox := [];
      rotations := [CurrentPacked(now)];
    }

    /** The write-lock path of `get`: re-check the key, and if it is still
        stale open the new week's pool (`open`), store it with the current
        key and send `Spawn` of a backup actor with the fresh id `backup`;
        `delivered` says whether the send succeeded. */
    method Rotate(now: int, open: Result<PoolId>, delivered: bool, backup: ActorId)
      returns (r: Result<PoolId>)
      requires Valid()
      modifies this
      ensures Valid()
      ensures old(key) == CurrentPacked(now) ==>
        r == Ok(old(pool)) && key == old(key) && pool == old(pool) && outbox == old(outbox) &&
        rotations == old(rotations)
      ensures old(key) != CurrentPacked(now) && open.Err? ==>
        r == Err(open.error) && key == old(key) && pool == old(pool) && outbox == old(outbox) &&
        rotations == old(rotations)
      ensures old(key) != CurrentPacked(now) && open.Ok? ==>
        r == Ok(open.value) && key == CurrentPacked(now) && pool == open.value &&
        outbox == old(outbox) + (if delivered then [Spawn(backup)] else []) &&
        rotations == old(rotations) + [key]
    {
      var current := CurrentPacked(now);
      if key != current {
        if open.Err? {
          return Err(open.error);
        }
        key, pool := current, open.value;
        rotations := rotations + [current];
        if delivered {
          outbox := outbox + [Spawn(backup)];
        }
      }
      r := Ok(pool);
    }

    /** `RotatingPool::get` for one caller: the fast path, then the write path. */
    method Get(now: int, open: Result<PoolId>, delivered: bool, backup: ActorId)
      returns (r: Result<PoolId>)
      requires Valid()
      modifies this
      ensures Valid()
      ensures old(key) == CurrentPacked(now) ==>
        r == Ok(old(pool)) && key == old(key) && pool == old(pool) && outbox == old(outbox) &&
        rotations == old(rotations)
      ensures old(key) != CurrentPacked(now) && open.Err? ==>
        r == Err(open.error) && key == old(key) && pool == old(pool) && outbox == old(outbox) &&
        rotations == old(rotations)
      ensures old(key) != CurrentPacked(now) && open.Ok? ==>
        r == Ok(open.value) && key == CurrentPacked(now) && pool == open.value &&
        outbox == old(outbox) + (if delivered then [Spawn(backup)] else []) &&
        rotations == old(rotations) + [key]
    {
      var fast := FastPath(key, pool, now);
      if fast.Some? {
        return Ok(fast.value);
      }
      r := Rotate(now, open, delivered, backup);
    }

    /** Two callers in the same week both miss the fast path before either
        takes the write lock. The first rotates; the second's re-check finds
        the new key, so it opens nothing and sends nothing: one rotation and at
        most one `Spawn`, and both get the same pool. */
    method RacingCallers(now: int, firstA: Result<PoolId>, firstB: Result<PoolId>,
                         delivered: bool, backupA: ActorId, backupB: ActorId)
      returns (a: Result<PoolId>, b: Result<PoolId>)
      requires Valid()
      modifies this
      ensures Valid()
      ensures |outbox| <= |old(outbox)| + 1 && |rotations| <= |old(rotations)| + 1
      ensures old(key) == CurrentPacked(now) ==> a == b == Ok(old(pool)) && outbox == old(outbox)
      ensures old(key) != CurrentPacked(now) && firstA.Ok? ==>
        a == b == Ok(firstA.value) && outbox == old(outbox) + (if delivered then [Spawn(backupA)] else [])
    {
      var fastA := FastPath(key, pool, now);
      var fastB := FastPath(key, pool, now);
      if fastA.Some? {
        a := Ok(fastA.value);
      } else {
        a := Rotate(now, firstA, delivered, backupA);
      }
      if fastB.Some? {
        b := Ok(fastB.value);
      } else {
        b := Rotate(now, firstB, delivered, backupB);
      }
    }

    /** Two calls in one ISO week: the second finds the key the first stored
        and takes the fast path, so the week has at most one rotation and at
        most one `Spawn`. */
    method GetTwiceInOneWeek(now1: int, now2: int, open1: Result<PoolId>, open2: Result<PoolId>,
                             delivered: bool, backup1: ActorId, backup2: ActorId)
      returns (r1: Result<PoolId>, r2: Result<PoolId>)
      requires Valid() && CurrentPacked(now1) == CurrentPacked(now2)
      modifies this
      ensures Valid()
      ensures |outbox| <= |old(outbox)| + 1
      ensures r1.Ok? ==> r2 == r1 && key == CurrentPacked(now1) && |rotations| <= |old(rotations)| + 1
    {
      r1 := Get(now1, open1, delivered, backup1);
      r2 := Get(now2, open2, delivered, backup2);
    }
  }
}
