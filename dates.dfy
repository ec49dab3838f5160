/** The date-fns predicates the board uses, over integer timestamps in
    milliseconds. A day is a UTC calendar day; a week starts on Sunday,
    the date-fns default. */
module Dates {

  const MsPerDay := 86_400_000
  /** 1 January 1970, day 0, was a Thursday: four days after a Sunday. */
  const EpochDaysAfterSunday := 4

  /** The calendar day a timestamp falls on. */
  function DayOf(t: int): int {
    t / MsPerDay
  }

  /** The calendar week (Sunday to Saturday) a timestamp falls on. */
  function WeekOf(t: int): int {
    (DayOf(t) + EpochDaysAfterSunday) / 7
  }

  predicate IsToday(t: int, now: int) {
    DayOf(t) == DayOf(now)
  }

  predicate IsTomorrow(t: int, now: int) {
    DayOf(t) == DayOf(now) + 1
  }

  predicate IsThisWeek(t: int, now: int) {
    WeekOf(t) == WeekOf(now)
  }

  predicate IsPast(t: int, now: int) {
    t < now
  }

  /** Later timestamps never fall on earlier days. */
  lemma DayOfMonotone(a: int, b: int)
    requires a <= b
    ensures DayOf(a) <= DayOf(b)
  {
    assert a == MsPerDay * (a / MsPerDay) + a % MsPerDay;
    assert b == MsPerDay * (b / MsPerDay) + b % MsPerDay;
  }

  lemma TodayIsThisWeek(t: int, now: int)
    requires IsToday(t, now)
    ensures IsThisWeek(t, now)
  {
  }

  /** A past timestamp falls on today or an earlier day. */
  lemma PastIsNotAfterToday(t: int, now: int)
    requires IsPast(t, now)
    ensures DayOf(t) <= DayOf(now)
  {
    DayOfMonotone(t, now);
  }

  /** A timestamp tomorrow is never in the past. */
  lemma TomorrowIsNotPast(t: int, now: int)
    requires IsTomorrow(t, now)
    ensures !IsPast(t, now)
  {
    if IsPast(t, now) {
      PastIsNotAfterToday(t, now);
    }
  }

  /** A timestamp that is today may already be past: midnight, seen at noon. */
  lemma TodayCanBePast()
    ensures IsToday(0, MsPerDay / 2) && IsPast(0, MsPerDay / 2)
  {
  }
}
