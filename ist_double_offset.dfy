/**
 * The host offset counted twice in src/lib/istTimezone.ts: the shift moves
 * the instant by five and a half hours minus the host offset, and the date
 * and the clock are then read in ways that are right only on a UTC host.
 * These lemmas state what the source computes on other hosts, against the
 * corrected reading.
 */
module IstDoubleOffset {
  import opened Wrappers
  import opened Text
  import opened EcmaDate
  import opened IstTimezone
  import opened IstCorrected

  /** Moving a minute of the day by `n` minutes lands on it again exactly when `n` is a whole number of days. */
  lemma ShiftModDay(x: int, n: int)
    requires 0 <= x < 1440
    ensures (x + n) % 1440 == x <==> n % 1440 == 0
  {
    var j, s := (x + n) / 1440, (x + n) % 1440;
    var k, r := n / 1440, n % 1440;
    assert x + n == 1440 * j + s;
    assert n == 1440 * k + r;
    if r == 0 {
      assert x + n == 1440 * k + x;
    }
    if s == x {
      assert n == 1440 * j + 0;
    }
  }

  /** Twice an offset is a whole number of days exactly when the offset is a multiple of twelve hours. */
  lemma TwiceOffsetModDay(tz: int)
    ensures (-2 * tz) % 1440 == 0 <==> tz % 720 == 0
  {
    var k, r := tz / 720, tz % 720;
    assert -2 * tz == 1440 * (-k) - 2 * r;
    if r != 0 {
      assert -2 * tz == 1440 * (-k - 1) + (1440 - 2 * r);
    }
  }

  /** An hour and a minute within it are determined by the minute of the day they make. */
  lemma ClockFieldsFromMinute(s: int, t: int)
    ensures HourFromTime(s) == HourFromTime(t) && MinFromTime(s) == MinFromTime(t) <==> MinuteOfDay(s) == MinuteOfDay(t)
  {
    var hs, ms, ht, mt := HourFromTime(s), MinFromTime(s), HourFromTime(t), MinFromTime(t);
    if hs < ht {
      assert hs * 60 + ms < ht * 60 + mt;
    } else if ht < hs {
      assert ht * 60 + mt < hs * 60 + ms;
    }
  }

  /**
   * What the source reads as the Indian clock: the Indian minute of the day
   * moved back by twice the host offset, because the shift subtracts the host
   * offset and `getHours`/`getMinutes` subtract it again.
   */
  lemma AsWrittenClockCountsOffsetTwice(now: int, tz: int)
    requires CurrentISTTime(now, tz).Some?
    ensures ClockReading(now, tz).0.Finite? && ClockReading(now, tz).1.Finite?
    ensures ClockReading(now, tz).0.v * 60 + ClockReading(now, tz).1.v
      == (MinuteOfDay(IstWallClock(now)) - 2 * tz) % 1440
  {
    var w := IstWallClock(now);
    var local := LocalTime(CurrentISTTime(now, tz).value, tz);
    var q := w / 60000;
    assert local == w - 2 * tz * 60000;
    assert local == 60000 * (q - 2 * tz) + w % 60000;
    assert local / 60000 == q - 2 * tz;
    MinuteOfDayCountsMinutes(local);
    MinuteOfDayCountsMinutes(w);
    AddMinutesModDay(q, -2 * tz);
  }

  /**
   * The source reads the Indian clock exactly on hosts whose offset is a
   * multiple of twelve hours: UTC itself, or a host twelve hours away.
   */
  lemma AsWrittenClockRightIff(now: int, tz: int)
    requires CurrentISTTime(now, tz).Some?
    ensures ClockReading(now, tz) == CorrectedClockReading(now) <==> tz % 720 == 0
  {
    var w := IstWallClock(now);
    var local := LocalTime(CurrentISTTime(now, tz).value, tz);
    AsWrittenClockCountsOffsetTwice(now, tz);
    ClockFieldsFromMinute(local, w);
    ShiftModDay(MinuteOfDay(w), -2 * tz);
    TwiceOffsetModDay(tz);
  }

  /** On a host that keeps UTC, the source reads the Indian clock. */
  lemma AsWrittenClockRightOnUtcHost(now: int)
    requires -MaxTime <= now + IstOffsetMs <= MaxTime
    ensures ClockReading(now, 0) == CorrectedClockReading(now)
  {
    assert LocalTime(now + IstOffsetMs, 0) == IstWallClock(now);
  }

  /** On a host that keeps UTC, the source reads the Indian date. */
  lemma AsWrittenDateRightOnUtcHost(now: int)
    requires -MaxTime <= now + IstOffsetMs <= MaxTime
    ensures GetTodayIST(now, 0) == Some(CorrectedTodayIST(now))
  {
    ShiftOnUtcHost(now);
    TodayISTAt(now, 0, IstWallClock(now), Day(IstWallClock(now)));
  }

  /** On a UTC host the shift moves the instant by the Indian offset. */
  lemma ShiftOnUtcHost(now: int)
    requires -MaxTime <= now + IstOffsetMs <= MaxTime
    ensures CurrentISTTime(now, 0) == Some(IstWallClock(now))
  {
  }

  /** `getTodayIST()` when the shifted instant is `t`, on day `day`. */
  lemma TodayISTAt(now: int, tz: int, t: int, day: int)
    requires CurrentISTTime(now, tz) == Some(t) && Day(t) == day
    ensures GetTodayIST(now, tz) == Some(DateText(CivilFromDay(day)))
  {
  }

  /**
   * On a host in India (offset -330) the shift adds the host offset where the
   * local-time read subtracts it again: at the epoch, 05:30 in India, the
   * source reads 16:30.
   */
  lemma AsWrittenClockOnIndianHost()
    ensures ClockReading(0, -330) == (Finite(16), Finite(30))
    ensures CorrectedClockReading(0) == (Finite(5), Finite(30))
  {
    assert CurrentISTTime(0, -330) == Some(39600000);
    assert LocalTime(39600000, -330) == 59400000;
  }

  /**
   * On a host in India (offset -330) the shift is applied twice over: from
   * 18:30 in India on, the source already gives the next day's date.
   */
  lemma AsWrittenDateOnIndianHost(now: int)
    requires TimeWithinDay(IstWallClock(now)) >= 66600000
    requires -MaxTime <= IstWallClock(now) + IstOffsetMs <= MaxTime
    ensures GetTodayIST(now, -330) == Some(DateText(CivilFromDay(Day(IstWallClock(now)) + 1)))
    ensures GetTodayIST(now, -330) != Some(CorrectedTodayIST(now))
  {
    AsWrittenTodayIsNextDay(now);
    NextDayIsNotToday(now);
  }

  /** From 18:30 in India, on a host in India, the source's date is that of the next Indian day. */
  lemma AsWrittenTodayIsNextDay(now: int)
    requires TimeWithinDay(IstWallClock(now)) >= 66600000
    requires -MaxTime <= IstWallClock(now) + IstOffsetMs <= MaxTime
    ensures GetTodayIST(now, -330) == Some(DateText(CivilFromDay(Day(IstWallClock(now)) + 1)))
  {
    ShiftOnIndianHost(now);
    DayAfterSixThirtyPm(IstWallClock(now));
    TodayISTAt(now, -330, IstWallClock(now) + IstOffsetMs, Day(IstWallClock(now)) + 1);
  }

  /** On a host in India the shift moves the instant by eleven hours, twice the Indian offset. */
  lemma ShiftOnIndianHost(now: int)
    requires -MaxTime <= IstWallClock(now) + IstOffsetMs <= MaxTime
    ensures CurrentISTTime(now, -330) == Some(IstWallClock(now) + IstOffsetMs)
  {
  }

  /** The next Indian day is written differently from the corrected reading of today. */
  lemma NextDayIsNotToday(now: int)
    ensures DateText(CivilFromDay(Day(IstWallClock(now)) + 1)) != CorrectedTodayIST(now)
  {
    NextDayTextAt(now);
  }

  /** The Indian day after today and today are written as different dates. */
  lemma NextDayTextAt(now: int)
    ensures DateText(CivilFromDay(Day(IstWallClock(now)) + 1)) != DateText(CivilFromDay(Day(IstWallClock(now))))
  {
    // stated first so that the call's precondition is a fact already in hand
    assert Day(IstWallClock(now)) + 1 != Day(IstWallClock(now));
    DayTextInjective(Day(IstWallClock(now)) + 1, Day(IstWallClock(now)));
  }

  /** Five and a half hours after 18:30 or later falls on the next day. */
  lemma DayAfterSixThirtyPm(w: int)
    requires TimeWithinDay(w) >= 66600000
    ensures Day(w + IstOffsetMs) == Day(w) + 1
  {
    assert w + IstOffsetMs == 86400000 * (Day(w) + 1) + (TimeWithinDay(w) + IstOffsetMs - 86400000);
  }
}
