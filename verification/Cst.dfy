/** The fixed UTC+8 calendar of backend/internal/usage/period.go.  Log times are
    unix seconds; a calendar day is named by its number, day 0 being 1970-01-01
    in UTC+8.  Dafny's division rounds down, so days before the epoch are right too. */
module Cst {

  const SECONDS_PER_DAY := 86400
  const UTC_OFFSET := 28800

  function DayOf(ts: int): int {
    (ts + UTC_OFFSET) / SECONDS_PER_DAY
  }

  function DayStart(day: int): int {
    day * SECONDS_PER_DAY - UTC_OFFSET
  }

  /** The last second of the day that holds `ts`. */
  function DayEnd(ts: int): int {
    DayStart(DayOf(ts) + 1) - 1
  }

  /** A second belongs to a day exactly when it lies between the day's first and last second. */
  lemma DayBounds(ts: int, day: int)
    ensures DayOf(ts) == day <==> DayStart(day) <= ts < DayStart(day + 1)
  {
  }

  /** Days begin at 16:00 UTC, which is midnight in UTC+8; day 0 is 1970-01-01. */
  lemma DaysBeginAtMidnight(day: int)
    ensures DayStart(day) == (24 * day - 8) * 3600 && DayOf(0) == 0 && DayOf(57599) == 0 && DayOf(57600) == 1
  {
  }

  lemma DayMonotone(a: int, b: int)
    requires a <= b
    ensures DayOf(a) <= DayOf(b)
  {
  }

  /** `DayEnd` is the greatest second of the same day: the next second starts a new day. */
  lemma DayEndIsLast(ts: int)
    ensures ts <= DayEnd(ts)
    ensures DayOf(DayEnd(ts)) == DayOf(ts)
    ensures DayOf(DayEnd(ts) + 1) == DayOf(ts) + 1
    ensures DayEnd(ts) + 1 == DayStart(DayOf(ts) + 1)
    ensures forall t :: ts <= t <= DayEnd(ts) ==> DayOf(t) == DayOf(ts)
  {
    forall t | ts <= t <= DayEnd(ts)
      ensures DayOf(t) == DayOf(ts)
    {
      DayBounds(t, DayOf(ts));
      DayBounds(ts, DayOf(ts));
    }
  }
}
