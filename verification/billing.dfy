/**
 * Billing arithmetic. Cloud instances are billed by the started hour, so what matters
 * about a pooled resource is how many minutes remain before its age crosses the next
 * hour boundary. Times are whole seconds on one clock; `now` is an input.
 */
module Billing {

  /** Whole minutes elapsed since `created` (floored, as Python's timedelta arithmetic floors). */
  function ElapsedMinutes(now: int, created: int): int {
    (now - created) / 60
  }

  /**
   * `get_time_until_hour()`: 60 minus the elapsed minutes modulo 60. It lies in 1..60:
   * a resource that has just started an hour has 60 minutes left, one about to cross has 1.
   */
  function TimeUntilHour(now: int, created: int): (r: int)
    ensures 1 <= r <= 60
  {
    60 - ElapsedMinutes(now, created) % 60
  }

  /** The minutes left and the minutes elapsed add up to a whole number of hours. */
  lemma TimeUntilHourCompletesHour(now: int, created: int)
    ensures (ElapsedMinutes(now, created) + TimeUntilHour(now, created)) % 60 == 0
  {
  }

  /** Time-until-hour repeats every hour of the resource's life. */
  lemma {:induction false} TimeUntilHourHourly(now: int, created: int, hours: int)
    ensures TimeUntilHour(now + 3600 * hours, created) == TimeUntilHour(now, created)
  {
    var m := ElapsedMinutes(now, created);
    assert now + 3600 * hours - created == (now - created) + 60 * (60 * hours);
    assert ElapsedMinutes(now + 3600 * hours, created) == m + 60 * hours;
  }

  /**
   * One minute later a resource has one minute less before its boundary, except that
   * one with a single minute left crosses it and starts a fresh hour of 60.
   */
  lemma {:induction false} TimeUntilHourTicks(now: int, created: int)
    ensures TimeUntilHour(now + 60, created)
            == if TimeUntilHour(now, created) == 1 then 60 else TimeUntilHour(now, created) - 1
  {
    assert ElapsedMinutes(now + 60, created) == ElapsedMinutes(now, created) + 1;
  }

  /** Resources created 55, 56, 57, 58 and 59 minutes ago have 5, 4, 3, 2 and 1 minutes left; 50 minutes ago, 10. */
  lemma TimeUntilHourExamples(now: int)
    ensures TimeUntilHour(now, now - 55 * 60) == 5
    ensures TimeUntilHour(now, now - 56 * 60) == 4
    ensures TimeUntilHour(now, now - 57 * 60) == 3
    ensures TimeUntilHour(now, now - 58 * 60) == 2
    ensures TimeUntilHour(now, now - 59 * 60) == 1
    ensures TimeUntilHour(now, now - 50 * 60) == 10
    ensures TimeUntilHour(now, now - 40 * 60) == 20
    ensures TimeUntilHour(now, now - 30 * 60) == 30
    ensures TimeUntilHour(now, now - 20 * 60) == 40
    ensures TimeUntilHour(now, now - 10 * 60) == 50
  {
  }

  /** The reclaim window of the teardown sweep: time-until-hour values from `lo` to `hi`, both included. */
  datatype Band = Band(lo: int, hi: int)

  /** The window the sweep uses by default: 2 and 3 minutes before the boundary are torn down; 1, 4 and 5 are kept. */
  const DefaultReclaimBand := Band(2, 3)

  predicate InBand(t: int, band: Band) {
    band.lo <= t <= band.hi
  }
}
