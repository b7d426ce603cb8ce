/** The older rotating pool of the single-binary recorder. It keeps the same
    `(packed week, pool)` cell as the storage crate, but on a rotation it
    starts the backup script itself instead of asking the supervisor; the
    script's command is `Backup.BackupCommand`. */
module LegacyStorage {
  import opened Results
  import opened WeeklyStorage

  /** `RotatingPool` of the recorder: the cell and the backup runs it has
      started, each known by the instant it was started at. */
  class LegacyRotatingPool {
    const dataFolder: string
    var key: nat
    var pool: PoolId
    var backupsStarted: seq<int>
    ghost var rotations: seq<nat>

    /** The cell holds the last recorded key, consecutive keys differ, and
        one backup was started per key change. */
    ghost predicate Valid()
      reads this
    {
      |rotations| >= 1 && rotations[|rotations| - 1] == key &&
      (forall i :: 0 < i < |rotations| ==> rotations[i - 1] != rotations[i]) &&
      |backupsStarted| == |rotations| - 1
    }

    /** The cell as `RotatingPool::new` leaves it once the first pool opened. */
    constructor (dataFolder: string, now: int, first: PoolId)
      ensures this.dataFolder == dataFolder
      ensures key == CurrentPacked(now) && pool == first && backupsStarted == []
      ensures Valid()
    {
      this.dataFolder := dataFolder;
      key := CurrentPacked(now);
      pool := first;
      backupsStarted := [];
      rotations := [CurrentPacked(now)];
    }

    /** The write-lock path of `get`: re-check, open the new week's pool
        (`open`), store it and start the backup task at `now`. */
    method Rotate(now: int, open: Result<PoolId>) returns (r: Result<PoolId>)
      requires Valid()
      modifies this
      ensures Valid()
      ensures old(key) == CurrentPacked(now) ==>
        r == Ok(old(pool)) && key == old(key) && pool == old(pool) &&
        backupsStarted == old(backupsStarted) && rotations == old(rotations)
      ensures old(key) != CurrentPacked(now) && open.Err? ==>
        r == Err(open.error) && key == old(key) && pool == old(pool) &&
        backupsStarted == old(backupsStarted) && rotations == old(rotations)
      ensures old(key) != CurrentPacked(now) && open.Ok? ==>
        r == Ok(open.value) && key == CurrentPacked(now) && pool == open.value &&
        backupsStarted == old(backupsStarted) + [now] && rotations == old(rotations) + [key]
    {
      var current := CurrentPacked(now);
      if key != current {
        if open.Err? {
          return Err(open.error);
        }
        key, pool := current, open.value;
        rotations := rotations + [current];
        backupsStarted := backupsStarted + [now];
      }
      r := Ok(pool);
    }

    /** `RotatingPool::get` for one caller. */
    method Get(now: int, open: Result<PoolId>) returns (r: Result<PoolId>)
      requires Valid()
      modifies this
      ensures Valid()
      ensures old(key) == CurrentPacked(now) ==>
        r == Ok(old(pool)) && key == old(key) && pool == old(pool) &&
        backupsStarted == old(backupsStarted) && rotations == old(rotations)
      ensures old(key) != CurrentPacked(now) && open.Err? ==>
        r == Err(open.error) && key == old(key) && pool == old(pool) &&
        backupsStarted == old(backupsStarted) && rotations == old(rotations)
      ensures old(key) != CurrentPacked(now) && open.Ok? ==>
        r == Ok(open.value) && key == CurrentPacked(now) && pool == open.value &&
        backupsStarted == old(backupsStarted) + [now] && rotations == old(rotations) + [key]
    {
      var fast := FastPath(key, pool, now);
      if fast.Some? {
        return Ok(fast.value);
      }
      r := Rotate(now, open);
    }

    /** Two calls in one ISO week: the second finds the key the first stored,
        so the week has at most one rotation and one backup. */
    method GetTwiceInOneWeek(now1: int, now2: int, open1: Result<PoolId>, open2: Result<PoolId>)
      returns (r1: Result<PoolId>, r2: Result<PoolId>)
      requires Valid() && CurrentPacked(now1) == CurrentPacked(now2)
      modifies this
      ensures Valid()
      ensures |backupsStarted| <= |old(backupsStarted)| + 1
      ensures r1.Ok? ==> r2 == r1 && key == CurrentPacked(now1) && |rotations| <= |old(rotations)| + 1
    {
      r1 := Get(now1, open1);
      r2 := Get(now2, open2);
    }
  }
}
