/**
  The buckets both history views use to describe how long ago something
  happened: just now, minutes, hours, days, or an absolute date.
*/
module Elapsed {

  datatype Age = JustNow | MinutesAgo(minutes: int) | HoursAgo(hours: int) | DaysAgo(days: int) | OnDate

  /** The order of the buckets, from the most recent to the oldest. */
  function Rank(a: Age): nat {
    match a
    case JustNow => 0
    case MinutesAgo(_) => 1
    case HoursAgo(_) => 2
    case DaysAgo(_) => 3
    case OnDate => 4
  }

  /** The count a bucket shows, 0 for the two buckets without one. */
  function Count(a: Age): int {
    match a
    case MinutesAgo(n) => n
    case HoursAgo(n) => n
    case DaysAgo(n) => n
    case _ => 0
  }
}
