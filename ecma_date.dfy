/**
 * The time-value arithmetic of ECMAScript `Date` objects (section 21.4.1 of
 * ECMA-262): day numbers, the proleptic Gregorian calendar, the fields of a
 * time within its day, local time for a fixed host offset, and the string
 * `Date.prototype.toISOString` produces.
 */
module EcmaDate {
  import opened Wrappers
  import opened Text

  // The section's msPerSecond, msPerMinute, msPerHour and msPerDay are written
  // out as the numbers 1000, 60000, 3600000 and 86400000, so that the
  // verifier sees products and quotients by them as linear arithmetic.

  /** The largest magnitude a time value may have (section 21.4.1.1 of ECMA-262). */
  const MaxTime := 8640000000000000

  /** `TimeClip`: a time value, or `None` (NaN, an invalid date) outside the range. */
  function TimeClip(t: int): (r: Option<int>)
    ensures r.Some? <==> -MaxTime <= t <= MaxTime
    ensures r.Some? ==> r.value == t
  {
    if -MaxTime <= t <= MaxTime then Some(t) else None
  }

  /** `Day(t)`: the number of the day `t` falls in, day 0 starting at the epoch. */
  function Day(t: int): int {
    t / 86400000
  }

  /** `TimeWithinDay(t)`: milliseconds since the start of that day. */
  function TimeWithinDay(t: int): (r: nat)
    ensures Day(t) * 86400000 + r == t && r < 86400000
  {
    t % 86400000
  }

  // ---------------------------------------------------------------------------
  // Years
  // ---------------------------------------------------------------------------

  predicate InLeapYear(y: int) {
    y % 4 == 0 && (y % 100 != 0 || y % 400 == 0)
  }

  function DaysInYear(y: int): nat {
    if InLeapYear(y) then 366 else 365
  }

  /**
   * The day number of the first day of year `y`, counted year by year from
   * 1970, whose first day is day 0.
   */
  function DayFromYear(y: int): int
    decreases if y >= 1970 then y - 1970 else 1970 - y
  {
    if y == 1970 then 0
    else if y > 1970 then DayFromYear(y - 1) + DaysInYear(y - 1)
    else DayFromYear(y + 1) - DaysInYear(y)
  }

  /** Each year's first day follows the previous one's by that year's length. */
  lemma DayFromYearStep(y: int)
    ensures DayFromYear(y + 1) == DayFromYear(y) + DaysInYear(y)
  {
    if y < 1969 {
      assert DayFromYear(y) == DayFromYear(y + 1) - DaysInYear(y);
    }
  }

  /** `DayFromYear(y)` as section 21.4.1.3 of ECMA-262 writes it. */
  function DayFromYearFormula(y: int): int {
    365 * (y - 1970) + (y - 1969) / 4 - (y - 1901) / 100 + (y - 1601) / 400
  }

  /** The year-by-year count is the closed form of ECMA-262. */
  lemma {:induction false} DayFromYearIsFormula(y: int)
    ensures DayFromYear(y) == DayFromYearFormula(y)
    decreases if y >= 1970 then y - 1970 else 1970 - y
  {
    if y > 1970 {
      DayFromYearIsFormula(y - 1);
      FormulaStep(y - 1);
    } else if y < 1970 {
      DayFromYearIsFormula(y + 1);
      FormulaStep(y);
    }
  }

  /** The closed form grows by the length of each year. */
  lemma FormulaStep(y: int)
    ensures DayFromYearFormula(y + 1) == DayFromYearFormula(y) + DaysInYear(y)
  {
    LeapStep4(y);
    LeapStep100(y);
    LeapStep400(y);
    Divisibility(y);
    var a4, a100, a400 := (y - 1968) / 4, (y - 1900) / 100, (y - 1600) / 400;
    var b4, b100, b400 := (y - 1969) / 4, (y - 1901) / 100, (y - 1601) / 400;
    assert DayFromYearFormula(y + 1) == 365 * (y - 1969) + a4 - a100 + a400;
    assert DayFromYearFormula(y) == 365 * (y - 1970) + b4 - b100 + b400;
  }

  /** Every multiple of 400 is one of 100, and every multiple of 100 one of 4. */
  lemma Divisibility(y: int)
    ensures y % 400 == 0 ==> y % 100 == 0
    ensures y % 100 == 0 ==> y % 4 == 0
  {
    var q400, q100 := y / 400, y / 100;
    if y % 400 == 0 {
      assert y == 100 * (4 * q400);
      assert y - 100 * q100 == 100 * (4 * q400 - q100);
    }
    if y % 100 == 0 {
      assert y == 4 * (25 * q100);
      assert y - 4 * (y / 4) == 4 * (25 * q100 - y / 4);
    }
  }

  /** `(y - 1968) / 4` passes a multiple of 4 between years `y - 1` and `y` exactly when `y` is one. */
  lemma LeapStep4(y: int)
    ensures (y - 1968) / 4 - (y - 1969) / 4 == (if y % 4 == 0 then 1 else 0)
  {
    var q, r := y / 4, y % 4;
    assert y - 1968 == 4 * (q - 492) + r;
    if r == 0 {
      assert y - 1969 == 4 * (q - 493) + 3;
    } else {
      assert y - 1969 == 4 * (q - 492) + (r - 1);
    }
  }

  /** `(y - 1900) / 100` passes a multiple of 100 between years `y - 1` and `y` exactly when `y` is one. */
  lemma LeapStep100(y: int)
    ensures (y - 1900) / 100 - (y - 1901) / 100 == (if y % 100 == 0 then 1 else 0)
  {
    var q, r := y / 100, y % 100;
    assert y - 1900 == 100 * (q - 19) + r;
    if r == 0 {
      assert y - 1901 == 100 * (q - 20) + 99;
    } else {
      assert y - 1901 == 100 * (q - 19) + (r - 1);
    }
  }

  /** `(y - 1600) / 400` passes a multiple of 400 between years `y - 1` and `y` exactly when `y` is one. */
  lemma LeapStep400(y: int)
    ensures (y - 1600) / 400 - (y - 1601) / 400 == (if y % 400 == 0 then 1 else 0)
  {
    var q, r := y / 400, y % 400;
    assert y - 1600 == 400 * (q - 4) + r;
    if r == 0 {
      assert y - 1601 == 400 * (q - 5) + 399;
    } else {
      assert y - 1601 == 400 * (q - 4) + (r - 1);
    }
  }

  /** Later years start later. */
  lemma {:induction false} DayFromYearMonotone(a: int, b: int)
    requires a < b
    ensures DayFromYear(a) < DayFromYear(b)
    decreases b - a
  {
    DayFromYearStep(a);
    if a + 1 < b {
      DayFromYearMonotone(a + 1, b);
    }
  }

  /** The latest year from `y` on that has started by day `d`. */
  function YearForward(d: int, y: int): (r: int)
    requires DayFromYear(y) <= d
    ensures y <= r && DayFromYear(r) <= d < DayFromYear(r + 1)
    decreases d - DayFromYear(y)
  {
    DayFromYearStep(y);
    if d < DayFromYear(y + 1) then y else YearForward(d, y + 1)
  }

  /** The latest year up to `y` that has started by day `d`, when year `y + 1` starts after it. */
  function YearBackward(d: int, y: int): (r: int)
    requires d < DayFromYear(y + 1)
    ensures r <= y && DayFromYear(r) <= d < DayFromYear(r + 1)
    decreases DayFromYear(y + 1) - d
  {
    DayFromYearStep(y);
    if DayFromYear(y) <= d then y else YearBackward(d, y - 1)
  }

  /** The year `YearFromTime` gives for the days of day number `d`. */
  function YearFromDay(d: int): (y: int)
    ensures DayFromYear(y) <= d < DayFromYear(y + 1)
  {
    if d >= 0 then YearForward(d, 1970) else YearBackward(d, 1969)
  }

  /** A day belongs to exactly one year. */
  lemma YearFromDayUnique(d: int, y: int)
    requires DayFromYear(y) <= d < DayFromYear(y + 1)
    ensures YearFromDay(d) == y
  {
    var r := YearFromDay(d);
    if r < y {
      DayFromYearMonotone(r + 1, y + 1);
      if r + 1 < y {
        DayFromYearMonotone(r + 1, y);
      }
    } else if y < r {
      if y + 1 < r {
        DayFromYearMonotone(y + 1, r);
      }
    }
  }

  // ---------------------------------------------------------------------------
  // Months
  // ---------------------------------------------------------------------------

  /** The days of a year before month `m` (0 for January, 12 for the year's end). */
  function MonthStart(m: nat, leap: bool): nat
    requires m <= 12
  {
    var common :=
      if m == 0 then 0 else if m == 1 then 31 else if m == 2 then 59 else if m == 3 then 90
      else if m == 4 then 120 else if m == 5 then 151 else if m == 6 then 181 else if m == 7 then 212
      else if m == 8 then 243 else if m == 9 then 273 else if m == 10 then 304 else if m == 11 then 334
      else 365;
    if leap && m >= 2 then common + 1 else common
  }

  /** The length of month `m` (0 for January): 28 to 31 days. */
  function DaysInMonth(m: nat, leap: bool): (r: nat)
    requires m < 12
    ensures 28 <= r <= 31
  {
    MonthStart(m + 1, leap) - MonthStart(m, leap)
  }

  /** Later months start later. */
  lemma MonthStartMonotone(a: nat, b: nat, leap: bool)
    requires a < b <= 12
    ensures MonthStart(a, leap) < MonthStart(b, leap)
  {
  }

  /** `MonthFromTime` for day `dwy` of a year: the month (0 for January) whose days include it. */
  function MonthOfDay(dwy: int, leap: bool): (m: nat)
    requires 0 <= dwy < MonthStart(12, leap)
    ensures m < 12 && MonthStart(m, leap) <= dwy < MonthStart(m + 1, leap)
  {
    if dwy < MonthStart(1, leap) then 0 else if dwy < MonthStart(2, leap) then 1
    else if dwy < MonthStart(3, leap) then 2 else if dwy < MonthStart(4, leap) then 3
    else if dwy < MonthStart(5, leap) then 4 else if dwy < MonthStart(6, leap) then 5
    else if dwy < MonthStart(7, leap) then 6 else if dwy < MonthStart(8, leap) then 7
    else if dwy < MonthStart(9, leap) then 8 else if dwy < MonthStart(10, leap) then 9
    else if dwy < MonthStart(11, leap) then 10 else 11
  }

  /** A day of a year belongs to exactly one month. */
  lemma MonthOfDayUnique(dwy: int, leap: bool, m: nat)
    requires m < 12 && MonthStart(m, leap) <= dwy < MonthStart(m + 1, leap)
    ensures dwy < MonthStart(12, leap)
    ensures MonthOfDay(dwy, leap) == m
  {
  }

  /** A calendar date: the year, the month from 1 to 12 and the day of the month from 1. */
  datatype Civil = Civil(year: int, month: nat, date: nat)

  predicate ValidCivil(c: Civil) {
    1 <= c.month <= 12 && 1 <= c.date <= DaysInMonth(c.month - 1, InLeapYear(c.year))
  }

  /** `MakeDay` for a calendar date: the number of its day. */
  function MakeDay(c: Civil): int
    requires 1 <= c.month <= 12
  {
    DayFromYear(c.year) + MonthStart(c.month - 1, InLeapYear(c.year)) + c.date - 1
  }

  /**
   * `YearFromTime`, `MonthFromTime` and `DateFromTime` for the days of day
   * number `d`: a valid calendar date, and the one whose day is `d`.
   */
  function CivilFromDay(d: int): (c: Civil)
    ensures ValidCivil(c)
  {
    var y := YearFromDay(d);
    DayFromYearStep(y);
    CivilInYearValid(y, d - DayFromYear(y));
    CivilInYear(y, d - DayFromYear(y))
  }

  /** The calendar date of day `d` is the one whose day is `d`. */
  lemma CivilFromDayMakesDay(d: int)
    ensures MakeDay(CivilFromDay(d)) == d
  {
    var y := YearFromDay(d);
    DayFromYearStep(y);
    CivilInYearValid(y, d - DayFromYear(y));
  }

  /** The calendar date of day `dwy` (0 for January 1) of year `y`. */
  function CivilInYear(y: int, dwy: int): Civil
    requires 0 <= dwy < DaysInYear(y)
  {
    var leap := InLeapYear(y);
    assert MonthStart(12, leap) == DaysInYear(y);
    var m := MonthOfDay(dwy, leap);
    Civil(y, m + 1, dwy - MonthStart(m, leap) + 1)
  }

  /** Day `dwy` of year `y` is a valid date of that year, and the one whose day it is. */
  lemma CivilInYearValid(y: int, dwy: int)
    requires 0 <= dwy < DaysInYear(y)
    ensures ValidCivil(CivilInYear(y, dwy)) && CivilInYear(y, dwy).year == y
    ensures MakeDay(CivilInYear(y, dwy)) == DayFromYear(y) + dwy
  {
    var leap := InLeapYear(y);
    assert MonthStart(12, leap) == DaysInYear(y);
    var m := MonthOfDay(dwy, leap);
    CivilInYearOfMonth(y, dwy, m);
  }

  /** A valid date is the date of its own day of the year. */
  lemma CivilInYearOfDate(c: Civil)
    requires ValidCivil(c)
    requires 0 <= MakeDay(c) - DayFromYear(c.year) < DaysInYear(c.year)
    ensures CivilInYear(c.year, MakeDay(c) - DayFromYear(c.year)) == c
  {
    CivilInYearOfMonth(c.year, MakeDay(c) - DayFromYear(c.year), c.month - 1);
  }

  /** The date of a day within month `m` of year `y`. */
  lemma CivilInYearOfMonth(y: int, dwy: int, m: nat)
    requires 0 <= dwy < DaysInYear(y)
    requires m < 12 && MonthStart(m, InLeapYear(y)) <= dwy < MonthStart(m + 1, InLeapYear(y))
    ensures CivilInYear(y, dwy) == Civil(y, m + 1, dwy - MonthStart(m, InLeapYear(y)) + 1)
  {
    MonthOfDayUnique(dwy, InLeapYear(y), m);
  }

  /** Every valid calendar date is the date of the day it names. */
  lemma MakeDayRoundTrip(c: Civil)
    requires ValidCivil(c)
    ensures CivilFromDay(MakeDay(c)) == c
  {
    MakeDayWithinYear(c);
    DayFromYearStep(c.year);
    CivilFromDayOfYear(MakeDay(c), c.year);
    CivilInYearOfDate(c);
  }

  /** The date of a day in year `y` is the date of its day within that year. */
  lemma CivilFromDayOfYear(d: int, y: int)
    requires DayFromYear(y) <= d < DayFromYear(y) + DaysInYear(y)
    ensures CivilFromDay(d) == CivilInYear(y, d - DayFromYear(y))
  {
    assert YearFromDay(d) == y by {
      DayFromYearStep(y);
      YearFromDayUnique(d, y);
    }
    CivilFromDayUnfold(d, y, d - DayFromYear(y));
  }

  lemma CivilFromDayUnfold(d: int, y: int, dwy: int)
    requires y == YearFromDay(d) && dwy == d - DayFromYear(y) && 0 <= dwy < DaysInYear(y)
    ensures CivilFromDay(d) == CivilInYear(y, dwy)
  {
  }

  /** A valid date's day number falls within its year, at its day of the year. */
  lemma MakeDayWithinYear(c: Civil)
    requires ValidCivil(c)
    ensures DayFromYear(c.year) <= MakeDay(c) < DayFromYear(c.year + 1)
    ensures MonthStart(c.month - 1, InLeapYear(c.year)) <= MakeDay(c) - DayFromYear(c.year) < MonthStart(c.month, InLeapYear(c.year))
  {
    var leap := InLeapYear(c.year);
    DayFromYearStep(c.year);
    if c.month < 12 {
      MonthStartMonotone(c.month, 12, leap);
    }
    assert MonthStart(12, leap) == DaysInYear(c.year);
  }

  // ---------------------------------------------------------------------------
  // Time of day and local time
  // ---------------------------------------------------------------------------

  /** `HourFromTime` */
  function HourFromTime(t: int): (r: nat)
    ensures r < 24
  {
    (t / 3600000) % 24
  }

  /** `MinFromTime` */
  function MinFromTime(t: int): (r: nat)
    ensures r < 60
  {
    (t / 60000) % 60
  }

  /** `SecFromTime` */
  function SecFromTime(t: int): (r: nat)
    ensures r < 60
  {
    (t / 1000) % 60
  }

  /** `msFromTime` */
  function MsFromTime(t: int): (r: nat)
    ensures r < 1000
  {
    t % 1000
  }

  /** The minutes since midnight that the hour and minute fields of `t` show. */
  function MinuteOfDay(t: int): (r: nat)
    ensures r < 1440
  {
    HourFromTime(t) * 60 + MinFromTime(t)
  }

  /** The hour and minute fields count the whole minutes since the epoch, modulo a day. */
  lemma MinuteOfDayCountsMinutes(t: int)
    ensures MinuteOfDay(t) == (t / 60000) % 1440
  {
    var m := t / 60000;
    var h, r1 := m / 60, m % 60;
    assert t == 3600000 * h + (60000 * r1 + t % 60000);
    assert t / 3600000 == h;
    var k, hr := h / 24, h % 24;
    assert m == 1440 * k + (60 * hr + r1);
  }

  /**
   * `LocalTime(t)` on a host whose `getTimezoneOffset()` is `offset` minutes
   * (UTC minus local time) at `t`.
   */
  function LocalTime(t: int, offset: int): int {
    t - offset * 60000
  }

  // ---------------------------------------------------------------------------
  // toISOString
  // ---------------------------------------------------------------------------

  /** The decimal digits of `n`, left-padded with zeros to at least `width` characters. */
  function Pad(n: nat, width: nat): (r: string)
    ensures AllDigits(r) && |r| >= width
  {
    var digits := NatToString(n);
    if |digits| >= width then digits else seq(width - |digits|, _ => '0') + digits
  }

  /** The year of an ISO string: four digits from 0 to 9999, otherwise a sign and six digits. */
  function YearText(y: int): string {
    if 0 <= y <= 9999 then Pad(y, 4)
    else (if y < 0 then "-" else "+") + Pad(if y < 0 then -y else y, 6)
  }

  /** `YYYY-MM-DD` */
  function DateText(c: Civil): string {
    YearText(c.year) + "-" + Pad(c.month, 2) + "-" + Pad(c.date, 2)
  }

  /** A date is written with digits and signs only: it holds no `T`. */
  lemma DateTextHasNoT(c: Civil)
    ensures 'T' !in DateText(c)
  {
    var y := Pad(if 0 <= c.year <= 9999 then c.year else if c.year < 0 then -c.year else c.year, if 0 <= c.year <= 9999 then 4 else 6);
    assert 'T' !in y;
    assert 'T' !in YearText(c.year);
    assert 'T' !in Pad(c.month, 2) && 'T' !in Pad(c.date, 2);
  }

  /** A padded number reads back as the number. */
  lemma PadValue(n: nat, width: nat)
    ensures DigitsValue(Pad(n, width)) == n
  {
    var digits := NatToString(n);
    NatToStringRoundTrip(n);
    if |digits| < width {
      var zeros := seq(width - |digits|, _ => '0');
      assert forall i :: 0 <= i < |zeros| ==> zeros[i] == '0';
      LeadingZerosValue(zeros, digits);
      assert Pad(n, width) == zeros + digits;
    }
  }

  /** Different numbers are padded differently. */
  lemma PadInjective(m: nat, n: nat, width: nat)
    requires Pad(m, width) == Pad(n, width)
    ensures m == n
  {
    PadValue(m, width);
    PadValue(n, width);
  }

  /** Numbers below 100 pad to exactly two digits. */
  lemma PadTwoDigits(n: nat)
    requires n < 100
    ensures |Pad(n, 2)| == 2
  {
    NatToStringShort(n);
  }

  /** A year's text starts with a digit exactly in the four-digit range, and with `-` exactly before year 0. */
  lemma YearTextFirst(y: int)
    ensures |YearText(y)| >= 1
    ensures IsDigit(YearText(y)[0]) <==> 0 <= y <= 9999
    ensures YearText(y)[0] == '-' <==> y < 0
  {
  }

  /** Different years are written differently. */
  lemma YearTextInjective(a: int, b: int)
    requires YearText(a) == YearText(b)
    ensures a == b
  {
    YearTextFirst(a);
    YearTextFirst(b);
    if 0 <= a <= 9999 {
      PadInjective(a, b, 4);
    } else {
      var t := YearText(a);
      var ma, mb := if a < 0 then -a else a, if b < 0 then -b else b;
      assert t[1..] == Pad(ma, 6);
      assert YearText(b)[1..] == Pad(mb, 6);
      PadInjective(ma, mb, 6);
    }
  }

  /** The parts of a valid date's text: the year, then the month and the day in two digits each. */
  lemma DateTextParts(c: Civil)
    requires ValidCivil(c)
    ensures |DateText(c)| >= 6
    ensures DateText(c)[..|DateText(c)| - 6] == YearText(c.year)
    ensures DateText(c)[|DateText(c)| - 5..|DateText(c)| - 3] == Pad(c.month, 2)
    ensures DateText(c)[|DateText(c)| - 2..] == Pad(c.date, 2)
  {
    PadTwoDigits(c.month);
    PadTwoDigits(c.date);
    var y := YearText(c.year);
    assert DateText(c) == y + "-" + Pad(c.month, 2) + "-" + Pad(c.date, 2);
  }

  /** Different valid dates are written differently. */
  lemma DateTextInjective(a: Civil, b: Civil)
    requires ValidCivil(a) && ValidCivil(b) && DateText(a) == DateText(b)
    ensures a == b
  {
    DateTextParts(a);
    DateTextParts(b);
    YearTextInjective(a.year, b.year);
    PadInjective(a.month, b.month, 2);
    PadInjective(a.date, b.date, 2);
  }

  /** Different days are written as different dates. */
  lemma DayTextInjective(a: int, b: int)
    requires a != b
    ensures DateText(CivilFromDay(a)) != DateText(CivilFromDay(b))
  {
    if DateText(CivilFromDay(a)) == DateText(CivilFromDay(b)) {
      DateTextInjective(CivilFromDay(a), CivilFromDay(b));
      CivilFromDayMakesDay(a);
      CivilFromDayMakesDay(b);
    }
  }

  /** `HH:mm:ss.sss` for a time within its day. */
  function TimeText(t: int): string {
    Pad(HourFromTime(t), 2) + ":" + Pad(MinFromTime(t), 2) + ":" + Pad(SecFromTime(t), 2) + "." + Pad(MsFromTime(t), 3)
  }

  /** `toISOString` of a valid time value: the UTC date, `T`, the UTC time and `Z`. */
  function IsoText(t: int): string {
    DateText(CivilFromDay(Day(t))) + "T" + TimeText(t) + "Z"
  }

  /** `toISOString` of a Date: a `RangeError` (here `None`) for an invalid date. */
  function IsoString(time: Option<int>): (r: Option<string>)
    ensures r.Some? <==> time.Some?
  {
    if time.Some? then Some(IsoText(time.value)) else None
  }

  /** What comes before the first `T` of an ISO string is the UTC calendar date of its day. */
  lemma IsoDatePart(t: int)
    ensures BeforeFirst(IsoText(t), 'T') == DateText(CivilFromDay(Day(t)))
  {
    var date := DateText(CivilFromDay(Day(t)));
    assert IsoText(t) == date + ['T'] + (TimeText(t) + "Z");
    DateTextHasNoT(CivilFromDay(Day(t)));
    BeforeFirstOf(date, 'T', TimeText(t) + "Z");
  }
}
