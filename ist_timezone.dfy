/**
 * The Indian Standard Time helpers of src/lib/istTimezone.ts. A JavaScript
 * `Date` is its time value (`None` for an invalid date), the clock is a
 * parameter `now` (milliseconds since the epoch, what `new Date()` reads),
 * and the host's time zone is its `getTimezoneOffset()` in minutes, passed
 * with each call. A lemma that compares two instants takes the offset read at
 * each, so a daylight-saving change between them can be stated; how the
 * offset follows from the date is not modelled.
 */
module IstTimezone {
  import opened Wrappers
  import opened Text
  import opened EcmaDate

  /** `IST_OFFSET_MS`: five and a half hours. */
  const IstOffsetMs := 19800000

  // ---------------------------------------------------------------------------
  // The shift
  // ---------------------------------------------------------------------------

  /**
   * `new Date(d.getTime() + (IST_OFFSET_MS - d.getTimezoneOffset() * 60000))`
   * on a host whose offset is `tz` minutes: the time value moved by five and a
   * half hours minus the host offset, or an invalid date when `d` is invalid
   * or the sum leaves the range of time values.
   */
  function Shifted(d: Option<int>, tz: int): (r: Option<int>)
    ensures r.Some? ==> d.Some? && r.value == d.value + 19800000 - tz * 60000
    ensures d.Some? && -MaxTime <= d.value + 19800000 - tz * 60000 <= MaxTime ==> r.Some?
  {
    if d.Some? then TimeClip(d.value + (IstOffsetMs - tz * 60000)) else None
  }

  /** `toIST(date)` for the parsed time value of `date`; `None` is the `RangeError` an invalid date raises. */
  function ToIST(date: Option<int>, tz: int): (r: Option<string>)
    ensures r.Some? <==> Shifted(date, tz).Some?
  {
    IsoString(Shifted(date, tz))
  }

  /** `getCurrentISTTime()` when the clock reads `now`. */
  function CurrentISTTime(now: int, tz: int): Option<int> {
    Shifted(Some(now), tz)
  }

  /**
   * `hasAppointmentPassed(appointmentDate)`, given the time value the string
   * parses to: the appointment instant is compared with the shifted current
   * instant, and an invalid date on either side compares false.
   */
  function HasAppointmentPassed(appointment: Option<int>, now: int, tz: int): (r: bool)
    ensures r <==> appointment.Some? && CurrentISTTime(now, tz).Some? && appointment.value < CurrentISTTime(now, tz).value
  {
    var current := CurrentISTTime(now, tz);
    appointment.Some? && current.Some? && appointment.value < current.value
  }

  /** Once an appointment has passed it stays passed while the clock moves on (within the range of dates). */
  lemma AppointmentStaysPassed(appointment: Option<int>, now: int, later: int, tz: int)
    requires HasAppointmentPassed(appointment, now, tz) && now <= later
    requires later + IstOffsetMs - tz * 60000 <= MaxTime
    ensures HasAppointmentPassed(appointment, later, tz)
  {
  }

  /**
   * The host offset is read afresh at each call, and daylight saving time
   * changes it: an appointment stays passed as long as the host's local clock
   * (the time value less the offset) has not gone back.
   */
  lemma AppointmentStaysPassedAcrossOffsets(appointment: Option<int>, now: int, tz: int, later: int, tzLater: int)
    requires HasAppointmentPassed(appointment, now, tz)
    requires now - tz * 60000 <= later - tzLater * 60000
    requires later + IstOffsetMs - tzLater * 60000 <= MaxTime
    ensures HasAppointmentPassed(appointment, later, tzLater)
  {
  }

  /**
   * When the host's clocks go back an hour (its offset grows from -60 to 0
   * minutes), an appointment that had passed half an hour earlier counts as not
   * passed again.
   */
  lemma ClocksGoingBackUnpass()
    ensures HasAppointmentPassed(Some(23000000), 0, -60)
    ensures !HasAppointmentPassed(Some(23000000), 1800000, 0)
  {
  }

  /** An appointment is passed exactly when it lies less than five and a half hours after `now` or earlier, on a UTC host. */
  lemma AppointmentPassedOnUtcHost(appointment: int, now: int)
    requires -MaxTime <= now + IstOffsetMs <= MaxTime
    ensures HasAppointmentPassed(Some(appointment), now, 0) <==> appointment - now < 19800000
  {
  }

  // ---------------------------------------------------------------------------
  // Today's date
  // ---------------------------------------------------------------------------

  /**
   * `getTodayIST()`: the calendar date, in `YYYY-MM-DD` form, of the UTC
   * fields of the shifted instant; `None` is the `RangeError` an invalid
   * shifted date raises. `GetTodayISTSplitsIsoString` shows this is the
   * part before `T` of `toIST(new Date())`, as the source computes it.
   */
  function GetTodayIST(now: int, tz: int): (r: Option<string>)
    ensures r.Some? <==> CurrentISTTime(now, tz).Some?
  {
    var current := CurrentISTTime(now, tz);
    if current.Some? then Some(DateText(CivilFromDay(Day(current.value)))) else None
  }

  /** `getTodayIST()` is `toIST(new Date()).split('T')[0]`. */
  lemma GetTodayISTSplitsIsoString(now: int, tz: int)
    ensures GetTodayIST(now, tz).Some? <==> ToIST(Some(now), tz).Some?
    ensures GetTodayIST(now, tz).Some? ==> GetTodayIST(now, tz).value == BeforeFirst(ToIST(Some(now), tz).value, 'T')
  {
    if CurrentISTTime(now, tz).Some? {
      IsoDatePart(CurrentISTTime(now, tz).value);
    }
  }

  /** `isDateTodayIST(dateStr)`: `None` is the `RangeError` `getTodayIST` raises. */
  function IsDateTodayIST(dateStr: string, now: int, tz: int): (r: Option<bool>)
    ensures r.Some? <==> GetTodayIST(now, tz).Some?
    ensures r == Some(true) <==> GetTodayIST(now, tz) == Some(dateStr)
  {
    var today := GetTodayIST(now, tz);
    if today.Some? then Some(dateStr == today.value) else None
  }

  // ---------------------------------------------------------------------------
  // Time slots
  // ---------------------------------------------------------------------------

  /** A time slot of the booking form: its `value` (`HH:MM`) and its `label` text. */
  datatype Slot = Slot(value: string, labelText: string)

  /** A JavaScript value that takes part in the slot comparison: a number, NaN or `undefined`. */
  datatype JsNumber = Finite(v: int) | NaN | Undefined

  /** An optionally signed run of decimal digits. */
  predicate IsIntegerLiteral(t: string) {
    (|t| >= 1 && AllDigits(t)) || (|t| >= 2 && (t[0] == '-' || t[0] == '+') && AllDigits(t[1..]))
  }

  /**
   * `Number(s)` for a string: white space around it is ignored, the empty
   * string is 0, an optionally signed integer literal is its value, and
   * anything else is NaN.
   */
  function ToNumber(s: string): (r: JsNumber)
    ensures r != Undefined
    ensures r.Finite? <==> Trim(s) == "" || IsIntegerLiteral(Trim(s))
  {
    var t := Trim(s);
    if t == "" then Finite(0)
    else if AllDigits(t) then Finite(DigitsValue(t))
    else if |t| >= 2 && t[0] == '-' && AllDigits(t[1..]) then Finite(-(DigitsValue(t[1..]) as int))
    else if |t| >= 2 && t[0] == '+' && AllDigits(t[1..]) then Finite(DigitsValue(t[1..]))
    else NaN
  }

  /** `a > b` for numbers: false when either side is NaN or `undefined`. */
  predicate Greater(a: JsNumber, b: JsNumber) {
    a.Finite? && b.Finite? && a.v > b.v
  }

  /** `a === b` where `b` is a number: false when either side is NaN or `undefined`. */
  predicate SameNumber(a: JsNumber, b: JsNumber) {
    a.Finite? && b.Finite? && a.v == b.v
  }

  /** `slot.value.split(':').map(Number)` destructured into the slot's hour and minute. */
  function SlotTime(slot: Slot): (JsNumber, JsNumber) {
    var parts := SplitOn(slot.value, ':');
    (ToNumber(parts[0]), if |parts| >= 2 then ToNumber(parts[1]) else Undefined)
  }

  /** The `filter` callback: the slot's hour is later, or it is the same hour and its minute is later. */
  predicate Keep(slot: Slot, hour: JsNumber, minute: JsNumber) {
    var (slotHour, slotMinute) := SlotTime(slot);
    Greater(slotHour, hour) || (SameNumber(slotHour, hour) && Greater(slotMinute, minute))
  }

  /** `slots.filter(keep)` */
  function FilterSlots(slots: seq<Slot>, hour: JsNumber, minute: JsNumber): seq<Slot>
    decreases |slots|
  {
    if |slots| == 0 then []
    else (if Keep(slots[0], hour, minute) then [slots[0]] else []) + FilterSlots(slots[1..], hour, minute)
  }

  /** `a` is `b` with some elements left out and the rest in their order. */
  predicate IsSubsequence<T(==)>(a: seq<T>, b: seq<T>)
    decreases |b|
  {
    if |a| == 0 then true
    else if |b| == 0 then false
    else if a[0] == b[0] then IsSubsequence(a[1..], b[1..])
    else IsSubsequence(a, b[1..])
  }

  /** A slot is among the filtered slots exactly when it is among the slots and is kept. */
  lemma {:induction false} FilterSlotsMembers(slots: seq<Slot>, hour: JsNumber, minute: JsNumber)
    ensures forall s :: s in FilterSlots(slots, hour, minute) <==> s in slots && Keep(s, hour, minute)
    decreases |slots|
  {
    if |slots| > 0 {
      FilterSlotsMembers(slots[1..], hour, minute);
      assert slots == [slots[0]] + slots[1..];
    }
  }

  /** The filtered slots are the slots with some left out and the rest in their order. */
  lemma {:induction false} FilterSlotsInOrder(slots: seq<Slot>, hour: JsNumber, minute: JsNumber)
    ensures IsSubsequence(FilterSlots(slots, hour, minute), slots)
    decreases |slots|
  {
    if |slots| > 0 {
      FilterSlotsInOrder(slots[1..], hour, minute);
      var rest := FilterSlots(slots[1..], hour, minute);
      if Keep(slots[0], hour, minute) {
        assert FilterSlots(slots, hour, minute) == [slots[0]] + rest;
        assert ([slots[0]] + rest)[1..] == rest;
      } else {
        assert FilterSlots(slots, hour, minute) == rest;
        SubsequenceOfTail(rest, slots);
      }
    }
  }

  /** A subsequence of a sequence's tail is a subsequence of the sequence. */
  lemma {:induction false} SubsequenceOfTail<T>(a: seq<T>, b: seq<T>)
    requires |b| > 0 && IsSubsequence(a, b[1..])
    ensures IsSubsequence(a, b)
    decreases |b|, 0
  {
    if |a| > 0 && a[0] == b[0] {
      SubsequenceDropFirst(a, b[1..]);
    }
  }

  /** Dropping the first element of a subsequence leaves a subsequence. */
  lemma {:induction false} SubsequenceDropFirst<T>(a: seq<T>, c: seq<T>)
    requires |a| > 0 && IsSubsequence(a, c)
    ensures IsSubsequence(a[1..], c)
    decreases |c|, 1
  {
    if a[0] != c[0] {
      SubsequenceDropFirst(a, c[1..]);
    }
    SubsequenceOfTail(a[1..], c);
  }

  /**
   * The hour and minute `filterPastTimeSlots` compares with: `getHours()` and
   * `getMinutes()` of the shifted instant, read in the host's local time.
   */
  function ClockReading(now: int, tz: int): (JsNumber, JsNumber) {
    var current := CurrentISTTime(now, tz);
    if current.Some? then
      (Finite(HourFromTime(LocalTime(current.value, tz))), Finite(MinFromTime(LocalTime(current.value, tz))))
    else (NaN, NaN)
  }

  /**
   * `filterPastTimeSlots(dateStr, timeSlots)`. The date is checked with a
   * clock reading `dateNow` and the hour and minute are read at `clockNow`,
   * since the source reads the clock twice. `None` is the `RangeError` the
   * date check can raise.
   */
  function FilterPastTimeSlots(dateStr: string, slots: seq<Slot>, dateNow: int, clockNow: int, tz: int)
    : (r: Option<seq<Slot>>)
    ensures r.None? <==> IsDateTodayIST(dateStr, dateNow, tz).None?
    ensures IsDateTodayIST(dateStr, dateNow, tz) == Some(false) ==> r == Some(slots)
    ensures IsDateTodayIST(dateStr, dateNow, tz) == Some(true) ==>
      r == Some(FilterSlots(slots, ClockReading(clockNow, tz).0, ClockReading(clockNow, tz).1))
  {
    var today := IsDateTodayIST(dateStr, dateNow, tz);
    if today.None? then None
    else if !today.value then Some(slots)
    else
      var (hour, minute) := ClockReading(clockNow, tz);
      Some(FilterSlots(slots, hour, minute))
  }

  /** A string of digits is its own trimmed form and reads as its value. */
  lemma DigitsToNumber(s: string)
    requires |s| >= 1 && AllDigits(s)
    ensures ToNumber(s) == Finite(DigitsValue(s))
  {
    assert !IsWhitespace(s[0]);
    assert Leading(s) == 0;
    assert TrimStart(s) == s;
    assert !IsWhitespace(s[|s| - 1]);
    assert Trailing(s) == 0;
    assert Trim(s) == s;
  }

  /**
   * For a slot written `HH:MM` in digits, the filter keeps it exactly when
   * its (hour, minute) comes strictly after the current (hour, minute) in
   * lexicographic order; a slot at the current minute is dropped.
   */
  lemma KeepIffLater(hh: string, mm: string, labelText: string, hour: int, minute: int)
    requires |hh| >= 1 && AllDigits(hh) && |mm| >= 1 && AllDigits(mm)
    ensures Keep(Slot(hh + ":" + mm, labelText), Finite(hour), Finite(minute)) <==>
      DigitsValue(hh) > hour || (DigitsValue(hh) == hour && DigitsValue(mm) > minute)
  {
    assert forall i :: 0 <= i < |hh| ==> hh[i] != ':';
    assert forall i :: 0 <= i < |mm| ==> mm[i] != ':';
    assert hh + ":" + mm == hh + [':'] + mm;
    SplitAfterPiece(hh, ':', mm);
    SplitWithoutSeparator(mm, ':');
    DigitsToNumber(hh);
    DigitsToNumber(mm);
  }
}
