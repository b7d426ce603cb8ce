/** ISO 8601 week dates (ISO 8601:2004, section 4.1.4) over a count of days
    since 1970-01-01, the calendar behind `get_date_components` and
    `get_previous_iso_week_components`. Weeks start on Monday; a week belongs
    to the year that holds its Thursday, so week 1 is the week holding the
    year's first Thursday. Instants are milliseconds since the Unix epoch. */
module IsoCalendar {

  const MsPerDay := 86_400_000
  const DaysPerWeek := 7

  /** The day (since 1970-01-01) holding the instant `ms`; earlier instants
      round down, as a UTC date does. */
  function DayOf(ms: int): (d: int)
    ensures d * MsPerDay <= ms < (d + 1) * MsPerDay
  {
    ms / MsPerDay
  }

  /** Monday = 0 … Sunday = 6; 1970-01-01 was a Thursday. */
  function Weekday(d: int): (w: int)
    ensures 0 <= w < 7
    ensures (d - w) % 7 == 4
  {
    (d + 3) % 7
  }

  /** The Thursday of the Monday-to-Sunday week holding `d`. */
  function ThursdayOf(d: int): (t: int)
    ensures Weekday(t) == 3
    ensures t - 3 <= d <= t + 3
  {
    d - Weekday(d) + 3
  }

  predicate IsLeap(y: int) {
    y % 4 == 0 && (y % 100 != 0 || y % 400 == 0)
  }

  /** The number of leap years among 1 … n, extended below 1 so that each step
      from n - 1 to n still adds one exactly when n is a leap year. */
  function Leaps(n: int): int
    decreases if n < 0 then -n else n
  {
    if n == 0 then 0
    else if n > 0 then Leaps(n - 1) + (if IsLeap(n) then 1 else 0)
    else Leaps(n + 1) - (if IsLeap(n + 1) then 1 else 0)
  }

  /** Leap years from year 1 up to 1969. */
  const LeapsBefore1970 := 477

  lemma LeapsBefore1970Counted()
    ensures Leaps(1969) == LeapsBefore1970 && YearStart(1970) == 0
  {
    LeapsClosed(1969);
  }

  /** Days from 1970-01-01 to January 1st of year `y` (proleptic Gregorian). */
  function YearStart(y: int): int {
    365 * (y - 1970) + Leaps(y - 1) - LeapsBefore1970
  }

  /** Stepping `n` by one changes `n / k` by one exactly when `k` divides `n + 1`. */
  lemma DivStep(n: int, k: int)
    requires k == 4 || k == 100 || k == 400
    ensures (n + 1) / k - n / k == if (n + 1) % k == 0 then 1 else 0
  {
    var q, r := n / k, n % k;
    assert n == k * q + r && 0 <= r < k;
    if r + 1 < k {
      assert n + 1 == k * q + (r + 1);
    } else {
      assert n + 1 == k * (q + 1);
    }
  }

  lemma LeapsStep(n: int)
    ensures Leaps(n + 1) - Leaps(n) == if IsLeap(n + 1) then 1 else 0
  {
  }

  /** A leap year counts as a multiple of 4, less one of 100, plus one of 400. */
  lemma LeapIndicator(n: int)
    ensures (if IsLeap(n) then 1 else 0) ==
      (if n % 4 == 0 then 1 else 0) - (if n % 100 == 0 then 1 else 0) + (if n % 400 == 0 then 1 else 0)
  {
    if n % 400 == 0 {
      var q := n / 400;
      assert n == 100 * (4 * q);
      assert n == 4 * (100 * q);
    } else if n % 100 == 0 {
      var q := n / 100;
      assert n == 4 * (25 * q);
    }
  }

  /** The closed form of `Leaps`: multiples of 4, less those of 100, plus those of 400. */
  lemma {:induction false} LeapsClosed(n: int)
    ensures Leaps(n) == n / 4 - n / 100 + n / 400
    decreases if n < 0 then -n else n
  {
    if n > 0 {
      LeapsClosed(n - 1);
      LeapsStep(n - 1);
      LeapIndicator(n);
      DivStep(n - 1, 4);
      DivStep(n - 1, 100);
      DivStep(n - 1, 400);
    } else if n < 0 {
      LeapsClosed(n + 1);
      LeapsStep(n);
      LeapIndicator(n + 1);
      DivStep(n, 4);
      DivStep(n, 100);
      DivStep(n, 400);
    }
  }

  lemma YearLength(y: int)
    ensures YearStart(y + 1) - YearStart(y) == if IsLeap(y) then 366 else 365
  {
    LeapsStep(y - 1);
  }

  /** `YearStart` without the recursion, for the year estimate below. */
  lemma YearStartClosed(y: int)
    ensures YearStart(y) == 365 * (y - 1970) + (y - 1) / 4 - (y - 1) / 100 + (y - 1) / 400 - LeapsBefore1970
  {
    LeapsClosed(y - 1);
  }

  /** The calendar year holding day `d`. */
  function YearOf(d: int): (y: int)
    ensures YearStart(y) <= d < YearStart(y + 1)
  {
    var g := 1970 + (d * 400) / 146097;
    YearStartClosed(g - 1);
    YearStartClosed(g);
    YearStartClosed(g + 1);
    YearStartClosed(g + 2);
    if d < YearStart(g) then g - 1
    else if YearStart(g + 1) <= d then g + 1
    else g
  }

  /** Year starts are strictly increasing, so a day lies in only one year. */
  lemma {:induction false} YearStartMonotone(a: int, b: int)
    requires a < b
    ensures YearStart(a) < YearStart(b)
    decreases b - a
  {
    YearLength(a);
    if a + 1 < b {
      YearStartMonotone(a + 1, b);
    }
  }

  lemma YearOfUnique(d: int, y: int)
    requires YearStart(y) <= d < YearStart(y + 1)
    ensures YearOf(d) == y
  {
    var z := YearOf(d);
    if z < y {
      YearStartMonotone(z + 1, y);
      assert false;
    } else if y < z {
      YearStartMonotone(y + 1, z);
      assert false;
    }
  }

  /** An ISO week date: ISO year and week number. */
  datatype IsoWeek = IsoWeek(year: int, week: nat)

  /** `date.iso_week()`: the week belongs to the year of its Thursday and is
      numbered from that year's first Thursday. */
  function IsoWeekOfDay(d: int): (w: IsoWeek)
    ensures 1 <= w.week <= 53
    ensures YearStart(w.year) + 7 * (w.week - 1) <= ThursdayOf(d) < YearStart(w.year) + 7 * w.week
  {
    var t := ThursdayOf(d);
    var y := YearOf(t);
    YearLength(y);
    IsoWeek(y, (t - YearStart(y)) / 7 + 1)
  }

  /** `get_date_components(date)` */
  function DateComponents(ms: int): IsoWeek {
    IsoWeekOfDay(DayOf(ms))
  }

  /** `get_previous_iso_week_components(date)`: the week of `date - 1 week`. */
  function PreviousWeekComponents(ms: int): IsoWeek {
    DateComponents(ms - DaysPerWeek * MsPerDay)
  }

  /** Subtracting a whole week from an instant moves its day back by seven. */
  lemma DayOfMinusWeek(ms: int)
    ensures DayOf(ms - DaysPerWeek * MsPerDay) == DayOf(ms) - 7
  {
  }

  /** The same time of day on day `d`. */
  lemma DayOfTimeOfDay(d: int, ms: int)
    requires 0 <= ms < MsPerDay
    ensures DayOf(d * MsPerDay + ms) == d
  {
  }

  /** A week later is the same weekday, so its Thursday is a week later too. */
  lemma ThursdayShift(d: int)
    ensures ThursdayOf(d + 7) == ThursdayOf(d) + 7
  {
    var q, r := (d + 3) / 7, (d + 3) % 7;
    assert d + 3 == 7 * q + r;
    assert d + 10 == 7 * (q + 1) + r;
  }

  /** Every day of a Monday-to-Sunday week has the same ISO week. */
  lemma SameWeekSameIsoWeek(d: int, e: int)
    requires d - Weekday(d) == e - Weekday(e)
    ensures IsoWeekOfDay(d) == IsoWeekOfDay(e)
  {
    assert ThursdayOf(d) == ThursdayOf(e);
  }

  /** Week 1 is exactly the week holding the first Thursday of the ISO year. */
  lemma WeekOneHoldsFirstThursday(d: int)
    ensures IsoWeekOfDay(d).week == 1 <==>
      (YearOf(ThursdayOf(d)) == IsoWeekOfDay(d).year && ThursdayOf(d) - 7 < YearStart(IsoWeekOfDay(d).year))
  {
  }

  /** The ISO week is the one whose Monday-to-Sunday span, counted from the
      year's start, holds the Thursday; the two bounds pin it down. */
  lemma IsoWeekOfDayIs(d: int, y: int, w: int)
    requires YearStart(y) <= ThursdayOf(d) < YearStart(y + 1)
    requires YearStart(y) + 7 * (w - 1) <= ThursdayOf(d) < YearStart(y) + 7 * w
    ensures IsoWeekOfDay(d) == IsoWeek(y, w)
  {
    YearOfUnique(ThursdayOf(d), y);
    var a := IsoWeekOfDay(d);
    assert a.year == y;
  }

  /** `b` is the ISO week right after `a`. */
  predicate Follows(a: IsoWeek, b: IsoWeek) {
    (b.year == a.year && b.week == a.week + 1) || (b.year == a.year + 1 && b.week == 1)
  }

  /** The week after `(y, w)` is `(y, w + 1)`, or week 1 of `y + 1` once the
      next Thursday falls into the next year. */
  lemma NextWeek(d: int)
    ensures Follows(IsoWeekOfDay(d), IsoWeekOfDay(d + 7))
  {
    var a := IsoWeekOfDay(d);
    var t := ThursdayOf(d);
    ThursdayShift(d);
    assert a.year == YearOf(t);
    if t + 7 < YearStart(a.year + 1) {
      IsoWeekOfDayIs(d + 7, a.year, a.week + 1);
      assert IsoWeekOfDay(d + 7) == IsoWeek(a.year, a.week + 1);
    } else {
      YearLength(a.year + 1);
      IsoWeekOfDayIs(d + 7, a.year + 1, 1);
      assert IsoWeekOfDay(d + 7) == IsoWeek(a.year + 1, 1);
    }
  }

  /** A week followed by week 1 of the next year is that year's week 52 or 53. */
  lemma LastWeekOfYear(d: int)
    requires IsoWeekOfDay(d + 7).year == IsoWeekOfDay(d).year + 1
    ensures 52 <= IsoWeekOfDay(d).week
  {
    var a, b := IsoWeekOfDay(d), IsoWeekOfDay(d + 7);
    var t := ThursdayOf(d);
    ThursdayShift(d);
    NextWeek(d);
    YearLength(a.year);
    assert t + 7 < YearStart(b.year) + 7;
    assert t - YearStart(a.year) >= 358;
  }

  /** Going back one week from `(y, w)` gives `(y, w - 1)`, or the last week
      of `y - 1` (52 or 53) when `w` is 1. */
  lemma PreviousWeek(d: int)
    ensures var a, b := IsoWeekOfDay(d), IsoWeekOfDay(d - 7);
      (a.week > 1 && b.year == a.year && b.week == a.week - 1) ||
      (a.week == 1 && b.year == a.year - 1 && 52 <= b.week <= 53)
  {
    var c := d - 7;
    NextWeek(c);
    assert c + 7 == d;
    var a, b := IsoWeekOfDay(d), IsoWeekOfDay(c);
    if b.year == a.year - 1 {
      LastWeekOfYear(c);
    }
  }

  /** The Thursday of `d`'s week is a multiple of seven days from 1970-01-01. */
  lemma ThursdayIsMultiple(d: int)
    ensures ThursdayOf(d) == 7 * ((d + 3) / 7)
  {
  }

  lemma ThursdayMonotone(d: int, e: int)
    requires d <= e
    ensures ThursdayOf(d) <= ThursdayOf(e)
  {
    ThursdayIsMultiple(d);
    ThursdayIsMultiple(e);
    var p, q := (d + 3) / 7, (e + 3) / 7;
    assert 7 * p <= d + 3 < 7 * p + 7;
    assert 7 * q <= e + 3 < 7 * q + 7;
  }

  /** `a` is no later than `b`. */
  predicate NotAfter(a: IsoWeek, b: IsoWeek) {
    a.year < b.year || (a.year == b.year && a.week <= b.week)
  }

  /** Later days never have an earlier ISO week. */
  lemma IsoWeekMonotone(d: int, e: int)
    requires d <= e
    ensures NotAfter(IsoWeekOfDay(d), IsoWeekOfDay(e))
  {
    var a, b := IsoWeekOfDay(d), IsoWeekOfDay(e);
    var s, t := ThursdayOf(d), ThursdayOf(e);
    ThursdayMonotone(d, e);
    assert a.year == YearOf(s) && b.year == YearOf(t);
    if b.year + 1 < a.year {
      YearStartMonotone(b.year + 1, a.year);
    } else if a.year == b.year {
      assert 7 * (a.week - 1) <= s - YearStart(a.year) <= t - YearStart(a.year) < 7 * b.week;
    }
  }

  /** Every day of the Monday-to-Sunday week before `d`'s week has the ISO
      week of `d - 7`, which is what `get_previous_iso_week_components` reports. */
  lemma PreviousWeekIsLastWeek(d: int, e: int)
    requires e - Weekday(e) == d - Weekday(d) - 7
    ensures IsoWeekOfDay(e) == IsoWeekOfDay(d - 7)
  {
    assert Weekday(d - 7) == Weekday(d);
    SameWeekSameIsoWeek(e, d - 7);
  }

  /** January 1st of 2025, 2026 and 2027 as day counts. */
  lemma YearStartsAround2026()
    ensures YearStart(2025) == 20089 && YearStart(2026) == 20454 && YearStart(2027) == 20819
  {
    LeapsClosed(2024);
    LeapsClosed(2025);
    LeapsClosed(2026);
  }

  /** 2025-12-29 (day 20451) is the Monday of 2026-W01. */
  lemma Dec29Of2025IsWeekOneOf2026()
    ensures Weekday(20451) == 0
    ensures IsoWeekOfDay(20451) == IsoWeek(2026, 1)
    ensures DateComponents(20451 * MsPerDay + 12 * 3_600_000) == IsoWeek(2026, 1)
  {
    YearStartsAround2026();
    assert ThursdayOf(20451) == 20454;
    IsoWeekOfDayIs(20451, 2026, 1);
    DayOfTimeOfDay(20451, 12 * 3_600_000);
  }

  /** One week before 2025-12-29 is 2025-12-22, in 2025-W52. */
  lemma PreviousWeekOfDec29Of2025()
    ensures PreviousWeekComponents(20451 * MsPerDay + 12 * 3_600_000) == IsoWeek(2025, 52)
  {
    YearStartsAround2026();
    assert ThursdayOf(20444) == 20447;
    IsoWeekOfDayIs(20444, 2025, 52);
    DayOfTimeOfDay(20444, 12 * 3_600_000);
  }

  /** One week before 2026-01-01 (day 20454) is 2025-12-25, in 2025-W52. */
  lemma PreviousWeekOfJan1Of2026()
    ensures PreviousWeekComponents(20454 * MsPerDay + 12 * 3_600_000) == IsoWeek(2025, 52)
  {
    YearStartsAround2026();
    assert ThursdayOf(20447) == 20447;
    IsoWeekOfDayIs(20447, 2025, 52);
    DayOfTimeOfDay(20447, 12 * 3_600_000);
  }
}
