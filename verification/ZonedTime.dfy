/**
 Zone-local day starts and weekend windows. Instants are milliseconds since the epoch, and a
 zone is its offset function; local wall time is the instant plus the offset there.
 */
module ZonedTime {

  const SECOND: int := 1000
  const HOUR: int := 3600 * SECOND
  const DAY: int := 24 * HOUR

  type Offsets = int -> int

  /** Zone offsets are whole seconds. */
  ghost predicate WholeSeconds(off: Offsets) {
    forall t :: off(t) % SECOND == 0
  }

  /** Any two offsets of the zone differ by at most `d`. */
  ghost predicate Varies(off: Offsets, d: int) {
    d >= 0 && forall t, u {:trigger off(t), off(u)} :: off(t) - off(u) <= d
  }

  function Wall(off: Offsets, t: int): int {
    t + off(t)
  }

  /** The calendar day of the zoned parts, counted from 1970-01-01. */
  function LocalDay(off: Offsets, t: int): int {
    Wall(off, t) / DAY
  }

  /** offsetAt: the wall parts, which carry no milliseconds, against the instant cut to seconds. */
  function OffsetAt(off: Offsets, t: int): int {
    Wall(off, t) / SECOND * SECOND - t / SECOND * SECOND
  }

  /** zonedDayStartUtc: the offset at a first estimate stands in for the offset at midnight. */
  function DayStart(off: Offsets, now: int, dayOffset: int): int {
    var target := (LocalDay(off, now) + dayOffset) * DAY;
    var estimate := target - OffsetAt(off, now);
    target - OffsetAt(off, estimate)
  }

  lemma OffsetAtIsOffset(off: Offsets, t: int)
    requires WholeSeconds(off)
    ensures OffsetAt(off, t) == off(t)
  {
    var k := off(t) / SECOND;
    assert off(t) == k * SECOND by {
      assert off(t) % SECOND == 0;
    }
    assert (t + k * SECOND) / SECOND == t / SECOND + k;
  }

  // ---------------------------------------------------------------- midnights

  /** Around the midnight of day `n` the offset is `c`, for `d` milliseconds either way. */
  ghost predicate SteadyAs(off: Offsets, d: int, n: int, c: int) {
    forall t | n * DAY - c - d <= t <= n * DAY - c + d :: off(t) == c
  }

  ghost predicate Steady(off: Offsets, d: int, n: int) {
    exists c :: SteadyAs(off, d, n, c)
  }

  /** A steady midnight is one instant, and it divides time into earlier local days and this or later ones. */
  lemma MidnightDivides(off: Offsets, d: int, n: int, c: int, t: int)
    requires Varies(off, d) && SteadyAs(off, d, n, c)
    ensures t >= n * DAY - c <==> LocalDay(off, t) >= n
    ensures Wall(off, n * DAY - c) == n * DAY
  {
    var midnight := n * DAY - c;
    assert off(midnight) == c;
    assert off(t) - off(midnight) <= d && off(midnight) - off(t) <= d;
    assert t >= midnight <==> Wall(off, t) >= n * DAY;
    Quotient(Wall(off, t), n);
  }

  lemma Quotient(x: int, n: int)
    ensures x / DAY >= n <==> x >= n * DAY
  {
  }

  /** zonedDayStartUtc returns that midnight. */
  lemma DayStartTheorem(off: Offsets, d: int, now: int, dayOffset: int, c: int)
    requires WholeSeconds(off) && Varies(off, d) && SteadyAs(off, d, LocalDay(off, now) + dayOffset, c)
    ensures DayStart(off, now, dayOffset) == (LocalDay(off, now) + dayOffset) * DAY - c
  {
    var target := (LocalDay(off, now) + dayOffset) * DAY;
    OffsetAtIsOffset(off, now);
    OffsetAtIsOffset(off, target - off(now));
    assert off(target - c) == c;
    assert off(now) - off(target - c) <= d && off(target - c) - off(now) <= d;
  }

  /**
   Day windows tile time: an instant lies between two consecutive day starts exactly when its
   local day is that day, and the window depends on `now` only through its local day.
   */
  lemma TilingTheorem(off: Offsets, d: int, now: int, dayOffset: int, t: int)
    requires WholeSeconds(off) && Varies(off, d)
    requires Steady(off, d, LocalDay(off, now) + dayOffset) && Steady(off, d, LocalDay(off, now) + dayOffset + 1)
    ensures DayStart(off, now, dayOffset) <= t < DayStart(off, now, dayOffset + 1)
       <==> LocalDay(off, t) == LocalDay(off, now) + dayOffset
  {
    StartDivides(off, d, now, dayOffset, t);
    StartDivides(off, d, now, dayOffset + 1, t);
  }

  lemma StartDivides(off: Offsets, d: int, now: int, dayOffset: int, t: int)
    requires WholeSeconds(off) && Varies(off, d) && Steady(off, d, LocalDay(off, now) + dayOffset)
    ensures t >= DayStart(off, now, dayOffset) <==> LocalDay(off, t) >= LocalDay(off, now) + dayOffset
  {
    var n := LocalDay(off, now) + dayOffset;
    var c :| SteadyAs(off, d, n, c);
    DayStartTheorem(off, d, now, dayOffset, c);
    MidnightDivides(off, d, n, c, t);
  }

  // ---------------------------------------------------------------- one change near a midnight

  /**
   Around the midnight of day `n` the zone has offset `a` before the instant `change` and `b` from
   it on; offsets differ by at most `d`, and nothing else happens within `d` of either midnight.
   */
  ghost predicate OneChange(off: Offsets, d: int, n: int, change: int, a: int, b: int) {
    && -d <= a - b <= d
    && forall t | n * DAY - d <= t + a <= n * DAY + d || n * DAY - d <= t + b <= n * DAY + d ::
         off(t) == if t < change then a else b
  }

  /** The change skips the wall time `w`. */
  predicate Gap(w: int, change: int, a: int, b: int) {
    change + a <= w < change + b
  }

  /** The start that is computed for wall midnight `w` when the offset now is `o`. */
  function Computed(w: int, change: int, a: int, b: int, o: int): int {
    if w < change + o then w - a else w - b
  }

  lemma ComputedIsDayStart(off: Offsets, d: int, now: int, dayOffset: int, change: int, a: int, b: int)
    requires WholeSeconds(off) && Varies(off, d) && OneChange(off, d, LocalDay(off, now) + dayOffset, change, a, b)
    ensures DayStart(off, now, dayOffset)
         == Computed((LocalDay(off, now) + dayOffset) * DAY, change, a, b, off(now))
  {
    var w := (LocalDay(off, now) + dayOffset) * DAY;
    OffsetAtIsOffset(off, now);
    OffsetAtIsOffset(off, w - off(now));
    assert off(w - a) == if w - a < change then a else b;
    assert off(now) - off(w - a) <= d && off(w - a) - off(now) <= d;
  }

  /** The day has a midnight exactly when the change does not skip it. */
  lemma MidnightExists(off: Offsets, d: int, n: int, change: int, a: int, b: int)
    requires Varies(off, d) && OneChange(off, d, n, change, a, b)
    ensures (exists t :: Wall(off, t) == n * DAY) <==> !Gap(n * DAY, change, a, b)
  {
    var w := n * DAY;
    assert off(w - a) == if w - a < change then a else b;
    assert off(w - b) == if w - b < change then a else b;
    if !Gap(w, change, a, b) {
      assert Wall(off, w - a) == w || Wall(off, w - b) == w;
    }
    forall t | Wall(off, t) == w
      ensures !Gap(w, change, a, b)
    {
      assert off(t) - off(w - a) <= d && off(w - a) - off(t) <= d;
    }
  }

  /**
   With at most one change near the target midnight, and whatever the offset now is, the result is
   a local midnight exactly under a condition on the change, the wall time and the offset now.
   */
  lemma MidnightTheorem(off: Offsets, d: int, now: int, dayOffset: int, change: int, a: int, b: int)
    requires WholeSeconds(off) && Varies(off, d) && OneChange(off, d, LocalDay(off, now) + dayOffset, change, a, b)
    ensures var w := (LocalDay(off, now) + dayOffset) * DAY;
            (Wall(off, DayStart(off, now, dayOffset)) == w) <==>
              a == b || (if w < change + off(now) then w < change + a else w >= change + b)
  {
    var w := (LocalDay(off, now) + dayOffset) * DAY;
    ComputedIsDayStart(off, d, now, dayOffset, change, a, b);
    assert off(w - a) == if w - a < change then a else b;
    assert off(w - b) == if w - b < change then a else b;
  }

  /** If the offset now is one of the two, the result is a local midnight exactly when the day has one. */
  lemma ExactTheorem(off: Offsets, d: int, now: int, dayOffset: int, change: int, a: int, b: int)
    requires WholeSeconds(off) && Varies(off, d) && OneChange(off, d, LocalDay(off, now) + dayOffset, change, a, b)
    requires off(now) == a || off(now) == b
    ensures var w := (LocalDay(off, now) + dayOffset) * DAY;
            && (Wall(off, DayStart(off, now, dayOffset)) == w <==> exists t :: Wall(off, t) == w)
            && ((exists t :: Wall(off, t) == w) <==> !Gap(w, change, a, b))
  {
    MidnightTheorem(off, d, now, dayOffset, change, a, b);
    MidnightExists(off, d, LocalDay(off, now) + dayOffset, change, a, b);
  }

  /** `start` divides time into the local days before day `n` and the rest. */
  ghost predicate Divides(off: Offsets, start: int, n: int) {
    forall t :: t >= start <==> LocalDay(off, t) >= n
  }

  /**
   When the computed start divides time: the change does not jump over midnight and the offset now
   picks the right side of it; or the change starts or ends exactly at midnight and the start that
   the offset now picks is the first instant of the day.
   */
  predicate Clean(w: int, change: int, a: int, b: int, o: int) {
    if w < change + a && w <= change + b then a == b || w < change + o
    else if w >= change + a && w >= change + b then a == b || w >= change + o
    else w == change + a && w < change + o
  }

  /** The first instant from which on the local day is `n` or later, if there is one. */
  lemma DividesAt(off: Offsets, d: int, n: int, change: int, a: int, b: int, start: int)
    requires Varies(off, d) && OneChange(off, d, n, change, a, b)
    ensures var w := n * DAY;
            Divides(off, start, n) <==>
              if w < change + a && w <= change + b then start == w - a
              else if w >= change + a && w >= change + b then start == w - b
              else Gap(w, change, a, b) && start == change
  {
    var w := n * DAY;
    forall t
      ensures LocalDay(off, t) >= n <==> if t < change then t >= w - a else t >= w - b
    {
      WallSide(off, d, n, change, a, b, t);
      Quotient(Wall(off, t), n);
    }
    if Divides(off, start, n) {
      assert forall t {:trigger LocalDay(off, t)} :: t >= start <==> LocalDay(off, t) >= n;
      assert LocalDay(off, start) >= n && LocalDay(off, start - 1) < n;
      assert LocalDay(off, change) >= n <==> change >= start;
      assert LocalDay(off, change - 1) >= n <==> change - 1 >= start;
    }
  }

  /** On which side of midnight an instant's wall time is. */
  lemma WallSide(off: Offsets, d: int, n: int, change: int, a: int, b: int, t: int)
    requires Varies(off, d) && OneChange(off, d, n, change, a, b)
    ensures Wall(off, t) >= n * DAY <==> if t < change then t >= n * DAY - a else t >= n * DAY - b
  {
    var w := n * DAY;
    assert off(w - a) == if w - a < change then a else b;
    assert off(w - b) == if w - b < change then a else b;
    assert off(t) - off(w - a) <= d && off(w - a) - off(t) <= d;
    assert off(t) - off(w - b) <= d && off(w - b) - off(t) <= d;
  }

  /** The computed start divides time exactly when the change is clean of the midnight. */
  lemma DayStartDivides(off: Offsets, d: int, now: int, dayOffset: int, change: int, a: int, b: int)
    requires WholeSeconds(off) && Varies(off, d) && OneChange(off, d, LocalDay(off, now) + dayOffset, change, a, b)
    ensures var n := LocalDay(off, now) + dayOffset;
            Divides(off, DayStart(off, now, dayOffset), n) <==> Clean(n * DAY, change, a, b, off(now))
  {
    var n := LocalDay(off, now) + dayOffset;
    ComputedIsDayStart(off, d, now, dayOffset, change, a, b);
    DividesAt(off, d, n, change, a, b, DayStart(off, now, dayOffset));
  }

  /** The window between the two starts is exactly local day `n`. */
  ghost predicate Tiles(off: Offsets, start: int, end: int, n: int) {
    forall t :: start <= t < end <==> LocalDay(off, t) == n
  }

  lemma DividedTiles(off: Offsets, start: int, end: int, n: int)
    requires Divides(off, start, n) && Divides(off, end, n + 1)
    ensures Tiles(off, start, end, n)
  {
    forall t
      ensures start <= t < end <==> LocalDay(off, t) == n
    {
      assert t >= start <==> LocalDay(off, t) >= n;
      assert t >= end <==> LocalDay(off, t) >= n + 1;
    }
  }

  /** An instant on a later local day than `n` comes after any start of day `n`, and on an earlier one before. */
  lemma DaysApart(off: Offsets, d: int, n: int, change0: int, a0: int, b0: int, change1: int, a1: int, b1: int, t: int)
    requires Varies(off, d) && 3 * d < DAY
    requires OneChange(off, d, n, change0, a0, b0) && OneChange(off, d, n + 1, change1, a1, b1)
    ensures LocalDay(off, t) > n ==> t > n * DAY - a0 && t > n * DAY - b0
    ensures LocalDay(off, t) < n ==> t < (n + 1) * DAY - a1 && t < (n + 1) * DAY - b1
  {
    WallSide(off, d, n, change0, a0, b0, t);
    WallSide(off, d, n + 1, change1, a1, b1, t);
    Quotient(Wall(off, t), n);
    Quotient(Wall(off, t), n + 1);
    var x, y := n * DAY - a0, (n + 1) * DAY - a1;
    assert off(x) == if x < change0 then a0 else b0;
    assert off(y) == if y < change1 then a1 else b1;
    assert off(x) - off(y) <= d && off(y) - off(x) <= d;
  }

  lemma TiledDivides(off: Offsets, d: int, n: int, start: int, end: int,
                     change0: int, a0: int, b0: int, change1: int, a1: int, b1: int)
    requires Varies(off, d) && 3 * d < DAY && Tiles(off, start, end, n)
    requires OneChange(off, d, n, change0, a0, b0) && OneChange(off, d, n + 1, change1, a1, b1)
    requires start in {n * DAY - a0, n * DAY - b0} && end in {(n + 1) * DAY - a1, (n + 1) * DAY - b1}
    ensures Divides(off, start, n) && Divides(off, end, n + 1)
  {
    forall t
      ensures t >= start <==> LocalDay(off, t) >= n
      ensures t >= end <==> LocalDay(off, t) >= n + 1
    {
      assert start <= t < end <==> LocalDay(off, t) == n;
      DaysApart(off, d, n, change0, a0, b0, change1, a1, b1, t);
    }
  }

  lemma TilesIffDivided(off: Offsets, d: int, n: int, start: int, end: int,
                        change0: int, a0: int, b0: int, change1: int, a1: int, b1: int)
    requires Varies(off, d) && 3 * d < DAY
    requires OneChange(off, d, n, change0, a0, b0) && OneChange(off, d, n + 1, change1, a1, b1)
    requires start in {n * DAY - a0, n * DAY - b0} && end in {(n + 1) * DAY - a1, (n + 1) * DAY - b1}
    ensures Tiles(off, start, end, n) <==> Divides(off, start, n) && Divides(off, end, n + 1)
  {
    if Tiles(off, start, end, n) {
      TiledDivides(off, d, n, start, end, change0, a0, b0, change1, a1, b1);
    }
    if Divides(off, start, n) && Divides(off, end, n + 1) {
      DividedTiles(off, start, end, n);
    }
  }

  lemma StartIsCandidate(off: Offsets, d: int, now: int, k: int, n: int, change: int, a: int, b: int)
    requires n == LocalDay(off, now) + k
    requires WholeSeconds(off) && Varies(off, d) && OneChange(off, d, n, change, a, b)
    ensures DayStart(off, now, k) in {n * DAY - a, n * DAY - b}
    ensures Divides(off, DayStart(off, now, k), n) <==> Clean(n * DAY, change, a, b, off(now))
  {
    ComputedIsDayStart(off, d, now, k, change, a, b);
    DayStartDivides(off, d, now, k, change, a, b);
  }

  /**
   Which day windows tile time, with at most one change near each of their two midnights and
   offsets that differ by less than a third of a day: exactly those whose midnights are clean.
   */
  lemma TilingExactly(off: Offsets, d: int, now: int, k: int, n: int,
                      change0: int, a0: int, b0: int, change1: int, a1: int, b1: int)
    requires n == LocalDay(off, now) + k
    requires WholeSeconds(off) && Varies(off, d) && 3 * d < DAY
    requires OneChange(off, d, n, change0, a0, b0) && OneChange(off, d, n + 1, change1, a1, b1)
    ensures Tiles(off, DayStart(off, now, k), DayStart(off, now, k + 1), n) <==>
              Clean(n * DAY, change0, a0, b0, off(now)) && Clean((n + 1) * DAY, change1, a1, b1, off(now))
  {
    var start, end := DayStart(off, now, k), DayStart(off, now, k + 1);
    StartIsCandidate(off, d, now, k, n, change0, a0, b0);
    StartIsCandidate(off, d, now, k + 1, n + 1, change1, a1, b1);
    TilesIffDivided(off, d, n, start, end, change0, a0, b0, change1, a1, b1);
  }

  // ---------------------------------------------------------------- weekends

  /** Sunday is 0; 1970-01-01 was a Thursday. */
  function Weekday(day: int): int {
    (day + 4) % 7
  }

  function FridayOffset(weekday: int): int {
    if weekday == 0 then -2 else if weekday == 6 then -1 else 5 - weekday
  }

  /** weekendWindowUtc: from Friday 00:00 to Monday 00:00. */
  function WeekendWindow(off: Offsets, now: int): (int, int) {
    var friday := FridayOffset(Weekday(LocalDay(off, now)));
    (DayStart(off, now, friday), DayStart(off, now, friday + 3))
  }

  /** EXTRACT(ISODOW): Monday is 1, Sunday 7. */
  function IsoWeekday(day: int): int {
    (day + 3) % 7 + 1
  }

  /** The weekend range of the discovery query: event_day BETWEEN the two dates. */
  predicate SqlWeekend(today: int, day: int) {
    var dow := IsoWeekday(today);
    today + (if dow == 7 then -2 else 5 - dow) <= day <= today + (if dow == 7 then 0 else 7 - dow)
  }

  lemma SqlWeekendIsFridayToSunday(today: int, day: int)
    ensures var friday := today + FridayOffset(Weekday(today));
            && Weekday(0) == 4 && Weekday(today + 1) == (Weekday(today) + 1) % 7
            && Weekday(friday) == 5
            && (SqlWeekend(today, day) <==> friday <= day < friday + 3)
            && (friday <= today < friday + 3 <==> Weekday(today) in {5, 6, 0})
  {
  }

  /**
   The window holds exactly the instants whose local day is in the SQL weekend range, and it
   holds `now` exactly from Friday to Sunday.
   */
  lemma WeekendTheorem(off: Offsets, d: int, now: int, t: int)
    requires WholeSeconds(off) && Varies(off, d)
    requires var friday := LocalDay(off, now) + FridayOffset(Weekday(LocalDay(off, now)));
             Steady(off, d, friday) && Steady(off, d, friday + 3)
    ensures var (from, to) := WeekendWindow(off, now);
            && (from <= t < to <==> SqlWeekend(LocalDay(off, now), LocalDay(off, t)))
            && (from <= now < to <==> Weekday(LocalDay(off, now)) in {5, 6, 0})
  {
    var friday := FridayOffset(Weekday(LocalDay(off, now)));
    StartDivides(off, d, now, friday, t);
    StartDivides(off, d, now, friday + 3, t);
    StartDivides(off, d, now, friday, now);
    StartDivides(off, d, now, friday + 3, now);
    SqlWeekendIsFridayToSunday(LocalDay(off, now), LocalDay(off, t));
  }

  /** A zone that springs forward by an hour at local midnight. */
  ghost predicate SpringsAtMidnight(off: Offsets) {
    forall t :: off(t) == if t < 0 then 0 else HOUR
  }

  lemma SpringIsOneChange(off: Offsets)
    requires SpringsAtMidnight(off)
    ensures WholeSeconds(off) && Varies(off, HOUR) && OneChange(off, HOUR, 0, 0, 0, HOUR)
  {
  }

  /** The start computed half a day before falls at 23:00 of the day before. */
  lemma MidnightGap(off: Offsets)
    requires SpringsAtMidnight(off)
    ensures LocalDay(off, -12 * HOUR) == -1 && !(exists t :: Wall(off, t) == 0)
    ensures DayStart(off, -12 * HOUR, 1) == -HOUR && !Divides(off, -HOUR, 0)
  {
    var now := -12 * HOUR;
    assert off(now) == 0;
    SpringIsOneChange(off);
    MidnightExists(off, HOUR, 0, 0, 0, HOUR);
    ComputedIsDayStart(off, HOUR, now, 1, 0, 0, HOUR);
    DayStartDivides(off, HOUR, now, 1, 0, 0, HOUR);
  }

  /** The one computed afterwards is no midnight either, but divides time at the change. */
  lemma AfterMidnightGap(off: Offsets)
    requires SpringsAtMidnight(off)
    ensures LocalDay(off, HOUR) == 0
    ensures DayStart(off, HOUR, 0) == 0 && Divides(off, 0, 0)
  {
    assert off(HOUR) == HOUR;
    SpringIsOneChange(off);
    ComputedIsDayStart(off, HOUR, HOUR, 0, 0, 0, HOUR);
    DayStartDivides(off, HOUR, HOUR, 0, 0, 0, HOUR);
  }
}
