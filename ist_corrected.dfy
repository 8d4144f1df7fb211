/**
 * The Indian date and clock as src/lib/istTimezone.ts means them, whatever
 * the host's time zone: the instant moved by five and a half hours, read with
 * its UTC fields.
 */
module IstCorrected {
  import opened Wrappers
  import opened Text
  import opened EcmaDate
  import opened IstTimezone

  /**
   * The Indian wall clock at `now`: the instant moved by five and a half
   * hours and read with the UTC fields, whatever the host's time zone.
   */
  function IstWallClock(now: int): int {
    now + IstOffsetMs
  }

  /** Today's date in India: the UTC calendar date of the Indian wall clock. */
  function CorrectedTodayIST(now: int): string {
    DateText(CivilFromDay(Day(IstWallClock(now))))
  }

  /** The corrected date is what precedes `T` in the ISO string of the Indian wall clock. */
  lemma CorrectedTodayIsIsoDate(now: int)
    ensures CorrectedTodayIST(now) == BeforeFirst(IsoText(IstWallClock(now)), 'T')
  {
    IsoDatePart(IstWallClock(now));
  }

  /** The Indian hour and minute at `now`. */
  function CorrectedClockReading(now: int): (JsNumber, JsNumber) {
    (Finite(HourFromTime(IstWallClock(now))), Finite(MinFromTime(IstWallClock(now))))
  }

  /** `filterPastTimeSlots` against the Indian date and wall clock. */
  function CorrectedFilterPastTimeSlots(dateStr: string, slots: seq<Slot>, dateNow: int, clockNow: int): (r: seq<Slot>)
    ensures dateStr != CorrectedTodayIST(dateNow) ==> r == slots
    ensures dateStr == CorrectedTodayIST(dateNow) ==>
      r == FilterSlots(slots, CorrectedClockReading(clockNow).0, CorrectedClockReading(clockNow).1)
  {
    if dateStr != CorrectedTodayIST(dateNow) then slots
    else
      var (hour, minute) := CorrectedClockReading(clockNow);
      FilterSlots(slots, hour, minute)
  }

  /** The corrected reading is Indian Standard Time: the UTC time of day plus 5:30, modulo a day. */
  lemma CorrectedClockIsUtcPlusFiveThirty(now: int)
    ensures MinuteOfDay(IstWallClock(now)) == (MinuteOfDay(now) + 330) % 1440
  {
    var q := now / 60000;
    MinuteOfDayCountsMinutes(now);
    MinuteOfDayCountsMinutes(IstWallClock(now));
    assert IstWallClock(now) == 60000 * (q + 330) + now % 60000;
    assert IstWallClock(now) / 60000 == q + 330;
    AddMinutesModDay(q, 330);
  }

  /** Adding minutes to a minute count and taking the minute of the day commute. */
  lemma AddMinutesModDay(q: int, n: int)
    ensures (q + n) % 1440 == (q % 1440 + n) % 1440
  {
    var k, r := q / 1440, q % 1440;
    var j, s := (r + n) / 1440, (r + n) % 1440;
    assert q + n == 1440 * (k + j) + s;
  }
}
