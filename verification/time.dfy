/**
 * Wall-clock time as integer milliseconds since the epoch, with days of a fixed
 * 86 400 000 ms (no time zone, no daylight saving). `DayStart` plays the part of
 * local midnight and `Weekday` of `Date.getDay()` (0 = Sunday).
 */
module Time {

  const MINUTE: int := 60_000
  const HOUR: int := 3_600_000
  const DAY: int := 86_400_000

  /** Midnight of the day that contains `t`. */
  function DayStart(t: int): (r: int)
    ensures r <= t < r + DAY
    ensures r % DAY == 0
  {
    t - t % DAY
  }

  /** Day of the week of `t`; 1 January 1970 was a Thursday (4). */
  function Weekday(t: int): (r: int)
    ensures 0 <= r < 7
  {
    (t / DAY + 4) % 7
  }

  /** `new Date(t).setHours(h, m, 0, 0)`: the same day at h:m:00.000. */
  function AtTime(t: int, h: int, m: int): int {
    DayStart(t) + h * HOUR + m * MINUTE
  }

  /** Milliseconds since midnight for an hour in 0..23 and a minute in 0..59. */
  predicate ValidClock(h: int, m: int) {
    0 <= h <= 23 && 0 <= m <= 59
  }

  lemma DayStartShift(t: int, k: int)
    ensures DayStart(t + k * DAY) == DayStart(t) + k * DAY
  {
    var q := t / DAY;
    assert t == q * DAY + t % DAY;
    assert t + k * DAY == (q + k) * DAY + t % DAY;
    assert (t + k * DAY) % DAY == t % DAY;
  }

  lemma DayStartOfMidnightPlus(d: int, off: int)
    requires d % DAY == 0 && 0 <= off < DAY
    ensures DayStart(d + off) == d
  {
    assert (d + off) % DAY == off;
  }

  lemma WeekdayNextDay(t: int)
    ensures Weekday(t + DAY) == (Weekday(t) + 1) % 7
  {
    assert (t + DAY) / DAY == t / DAY + 1;
  }

  /** Adding whole days moves the weekday forward by that many days. */
  lemma {:induction false} WeekdayAddDays(t: int, k: nat)
    ensures Weekday(t + k * DAY) == (Weekday(t) + k) % 7
  {
    if k > 0 {
      var w := Weekday(t) + (k - 1);
      WeekdayAddDays(t, k - 1);
      WeekdayNextDay(t + (k - 1) * DAY);
      assert t + (k - 1) * DAY + DAY == t + k * DAY;
      ModSevenSucc(w);
    }
  }

  lemma ModSevenSucc(a: int)
    ensures (a % 7 + 1) % 7 == (a + 1) % 7
  {
  }
}
