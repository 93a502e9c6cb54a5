/**
 * The next-occurrence computation of `arm` in src/coffee/coffeeTimer.go.
 * Instants are integer seconds of host local time, so a calendar day starts
 * at a multiple of 86400 and daylight-saving shifts do not exist.
 */
module Schedule {

  const SecondsPerDay: int := 86400

  /** Midnight of the day containing `now` (Go's `time.Date(y, m, d, 0, 0, 0, 0, loc)`). */
  function DayStart(now: int): int {
    now - now % SecondsPerDay
  }

  /** Offset of `hour:minute:00` from midnight; out-of-range fields carry over as `time.Date` normalises them. */
  function ClockOffset(hour: int, minute: int): int {
    hour * 3600 + minute * 60
  }

  /**
   * Today at `hour:minute:00`, moved on by 24 hours when that lies strictly
   * before `now`.  An instant equal to `now` is kept: the timer fires at once.
   */
  function NextFireInstant(now: int, hour: int, minute: int): (fireAt: int)
    ensures ClockOffset(hour, minute) >= 0 ==> now <= fireAt
    ensures fireAt - DayStart(now) - ClockOffset(hour, minute) in {0, SecondsPerDay}
  {
    DayStartBounds(now);
    var today := DayStart(now) + ClockOffset(hour, minute);
    if today < now then today + SecondsPerDay else today
  }

  lemma DayStartBounds(now: int)
    ensures DayStart(now) == (now / SecondsPerDay) * SecondsPerDay
    ensures DayStart(now) <= now < DayStart(now) + SecondsPerDay
  {
  }

  /** The clock of instant `days * 86400 + c` reads `c` seconds after midnight. */
  lemma ClockReading(days: int, c: int)
    requires 0 <= c < SecondsPerDay
    ensures (days * SecondsPerDay + c) % SecondsPerDay == c
  {
  }

  /**
   * For an in-range time of day the fire instant reads `hour:minute:00`
   * and lies within the coming 24 hours, never before `now`.
   */
  lemma NextFireInWindow(now: int, hour: int, minute: int)
    requires 0 <= hour < 24 && 0 <= minute < 60
    ensures var f := NextFireInstant(now, hour, minute);
      now <= f < now + SecondsPerDay && f % SecondsPerDay == ClockOffset(hour, minute)
  {
    var c := ClockOffset(hour, minute);
    var q := now / SecondsPerDay;
    DayStartBounds(now);
    if q * SecondsPerDay + c < now {
      ClockReading(q + 1, c);
      assert NextFireInstant(now, hour, minute) == (q + 1) * SecondsPerDay + c;
    } else {
      ClockReading(q, c);
      assert NextFireInstant(now, hour, minute) == q * SecondsPerDay + c;
    }
  }

  /** No instant at or after `now` reading `hour:minute:00` comes before the fire instant. */
  lemma NextFireIsEarliest(now: int, hour: int, minute: int, t: int)
    requires 0 <= hour < 24 && 0 <= minute < 60
    requires now <= t && t % SecondsPerDay == ClockOffset(hour, minute)
    ensures NextFireInstant(now, hour, minute) <= t
  {
    var q := now / SecondsPerDay;
    var k := t / SecondsPerDay;
    DayStartBounds(now);
    assert t == k * SecondsPerDay + ClockOffset(hour, minute);
    assert k >= q;
  }

  /** Arming at exactly the trigger instant schedules the fire for that same instant, not tomorrow (time in whole seconds). */
  lemma FiresAtOnceWhenExactlyDue(now: int, hour: int, minute: int)
    requires 0 <= hour < 24 && 0 <= minute < 60
    requires now % SecondsPerDay == ClockOffset(hour, minute)
    ensures NextFireInstant(now, hour, minute) == now
  {
  }
}
