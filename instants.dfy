/**
 * Instants as integer milliseconds since the epoch, and the calendar helpers
 * the source gets from date-fns: the day of an instant (`format(t, "yyyy-MM-dd")`),
 * its time of day in minutes (`format(t, "HH:mm")`), and re-reading an "HH:mm"
 * time on the day of a reference date (`parse(hhmm, "HH:mm", ref)`, which zeroes
 * the seconds). Days are 24-hour UTC days: time zones and daylight saving are
 * not modelled.
 */
module Instants {
  type Instant = int

  const MS_PER_MINUTE: int := 60000
  const MINUTES_PER_DAY: int := 1440
  const MS_PER_DAY: int := 86400000

  /** A minute of the day, the model of an "HH:mm" string. */
  type Clock = m: int | 0 <= m < MINUTES_PER_DAY

  function DayOf(t: Instant): int
  {
    t / MS_PER_DAY
  }

  function DayStart(t: Instant): (r: Instant)
    ensures r <= t < r + MS_PER_DAY && DayOf(r) == DayOf(t)
  {
    DayOf(t) * MS_PER_DAY
  }

  /** `format(t, "HH:mm")`, read as minutes since midnight. */
  function MinuteOfDay(t: Instant): (m: Clock)
    ensures DayStart(t) + m * MS_PER_MINUTE <= t < DayStart(t) + m * MS_PER_MINUTE + MS_PER_MINUTE
  {
    (t % MS_PER_DAY) / MS_PER_MINUTE
  }

  /** `parse(hhmm, "HH:mm", ref)`: the minute `m` on the day of `ref`, seconds zeroed. */
  function AtMinute(ref: Instant, m: Clock): (r: Instant)
    ensures DayOf(r) == DayOf(ref) && MinuteOfDay(r) == m
  {
    DayStart(ref) + m * MS_PER_MINUTE
  }

  /** date-fns `addDays(t, n)` (and `subDays` with `-n`) on 24-hour days. */
  function AddDays(t: Instant, n: int): (r: Instant)
    ensures DayOf(r) == DayOf(t) + n && MinuteOfDay(r) == MinuteOfDay(t)
  {
    t + n * MS_PER_DAY
  }

  /** An instant on a whole minute is rebuilt by re-reading its own "HH:mm". */
  lemma AtOwnMinute(t: Instant)
    requires t % MS_PER_MINUTE == 0
    ensures AtMinute(t, MinuteOfDay(t)) == t
  {
    var d, q, k := DayOf(t), t % MS_PER_DAY, t / MS_PER_MINUTE;
    assert t == k * MS_PER_MINUTE;
    assert q == (k - 1440 * d) * MS_PER_MINUTE;
    assert q / MS_PER_MINUTE == k - 1440 * d;
  }

  /** Times of day on one day compare as their minutes do. */
  lemma AtMinuteMonotone(ref: Instant, a: Clock, b: Clock)
    ensures AtMinute(ref, a) < AtMinute(ref, b) <==> a < b
  {
  }

  /**
   * date-fns `differenceInMinutes(later, earlier)` for instants in milliseconds:
   * the millisecond difference divided by 60000, truncated toward zero.
   */
  function DifferenceInMinutes(later: int, earlier: int): (r: int)
    ensures var d := later - earlier;
      && (d >= 0 ==> r * MS_PER_MINUTE <= d < r * MS_PER_MINUTE + MS_PER_MINUTE)
      && (d < 0 ==> r * MS_PER_MINUTE - MS_PER_MINUTE < d <= r * MS_PER_MINUTE)
  {
    var d := later - earlier;
    if d >= 0 then d / MS_PER_MINUTE else -((-d) / MS_PER_MINUTE)
  }
}
