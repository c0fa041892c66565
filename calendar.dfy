/**
 * Calendar dates as the reservation core reads them: an ISO `YYYY-MM-DD` string, its
 * position on the proleptic Gregorian calendar counted in days from 1970-01-01, and its
 * day of the week. The runtime's `Date` parsing is replaced by this arithmetic; the date
 * is read in UTC with no host time zone applied.
 */
module Calendar {
  import opened Wrappers
  import opened Text

  datatype Weekday = Monday | Tuesday | Wednesday | Thursday | Friday | Saturday | Sunday

  datatype CalendarDate = CalendarDate(year: int, month: int, day: int)

  predicate IsLeapYear(y: int) {
    y % 4 == 0 && (y % 100 != 0 || y % 400 == 0)
  }

  function DaysInMonth(y: int, m: int): (n: int)
    requires 1 <= m <= 12
    ensures 28 <= n <= 31
  {
    if m == 2 then (if IsLeapYear(y) then 29 else 28)
    else if m == 4 || m == 6 || m == 9 || m == 11 then 30
    else 31
  }

  predicate ValidDate(d: CalendarDate) {
    1 <= d.month <= 12 && 1 <= d.day <= DaysInMonth(d.year, d.month)
  }

  function FourDigits(s: string): nat
    requires |s| == 4 && forall i :: 0 <= i < 4 ==> IsDigit(s[i])
  {
    1000 * DigitValue(s[0]) + 100 * DigitValue(s[1]) + 10 * DigitValue(s[2]) + DigitValue(s[3])
  }

  function TwoDigitsValue(a: char, b: char): nat
    requires IsDigit(a) && IsDigit(b)
  {
    10 * DigitValue(a) + DigitValue(b)
  }

  /** Reads `YYYY-MM-DD`; anything else, or a day the month does not have, is no date. */
  function ParseIsoDate(s: string): (r: Option<CalendarDate>)
    ensures r.Some? ==> ValidDate(r.value) && 0 <= r.value.year <= 9999
  {
    if |s| == 10 && s[4] == '-' && s[7] == '-'
       && (forall i :: 0 <= i < 10 && i != 4 && i != 7 ==> IsDigit(s[i]))
    then
      var d := CalendarDate(FourDigits(s[..4]), TwoDigitsValue(s[5], s[6]), TwoDigitsValue(s[8], s[9]));
      if ValidDate(d) then Some(d) else None
    else None
  }

  /** Leap years strictly before year `y` (counted from year 1). */
  function LeapYearsBefore(y: int): int {
    (y - 1) / 4 - (y - 1) / 100 + (y - 1) / 400
  }

  function DaysBeforeMonth(y: int, m: int): (n: nat)
    requires 1 <= m <= 12
    decreases m
  {
    if m == 1 then 0 else DaysBeforeMonth(y, m - 1) + DaysInMonth(y, m - 1)
  }

  /** Days from 1970-01-01 to `d` (negative before it). */
  function DayNumber(d: CalendarDate): int
    requires ValidDate(d)
  {
    365 * (d.year - 1970) + LeapYearsBefore(d.year) - LeapYearsBefore(1970)
      + DaysBeforeMonth(d.year, d.month) + d.day - 1
  }

  function WeekdayFromIndex(i: int): Weekday
    requires 0 <= i < 7
  {
    [Monday, Tuesday, Wednesday, Thursday, Friday, Saturday, Sunday][i]
  }

  function WeekdayIndex(w: Weekday): (i: nat)
    ensures i < 7 && WeekdayFromIndex(i) == w
  {
    match w
    case Monday => 0 case Tuesday => 1 case Wednesday => 2 case Thursday => 3
    case Friday => 4 case Saturday => 5 case Sunday => 6
  }

  /** 1970-01-01 was a Thursday (index 3 counting from Monday). */
  function WeekdayOf(d: CalendarDate): Weekday
    requires ValidDate(d)
  {
    WeekdayFromIndex((DayNumber(d) + 3) % 7)
  }

  /** The calendar day after `d`. */
  function NextDay(d: CalendarDate): (n: CalendarDate)
    requires ValidDate(d)
    ensures ValidDate(n)
  {
    if d.day < DaysInMonth(d.year, d.month) then CalendarDate(d.year, d.month, d.day + 1)
    else if d.month < 12 then CalendarDate(d.year, d.month + 1, 1)
    else CalendarDate(d.year + 1, 1, 1)
  }

  function NextWeekday(w: Weekday): Weekday {
    WeekdayFromIndex((WeekdayIndex(w) + 1) % 7)
  }

  lemma DaysInYear(y: int)
    ensures DaysBeforeMonth(y, 12) + 31 == if IsLeapYear(y) then 366 else 365
  {
  }

  lemma {:induction false} MulAtLeast(k: int, d: int)
    requires k >= 1 && d > 0
    ensures k * d >= d
    decreases k
  {
    if k > 1 {
      MulAtLeast(k - 1, d);
      assert k * d == (k - 1) * d + d;
    }
  }

  /** Quotient and remainder are the only ones with `x == q * d + r` and `0 <= r < d`. */
  lemma ModUnique(x: int, d: int, q: int, r: int)
    requires d > 0 && x == q * d + r && 0 <= r < d
    ensures x / d == q && x % d == r
  {
    var q0, r0 := x / d, x % d;
    assert q * d - q0 * d == (q - q0) * d;
    if q > q0 {
      MulAtLeast(q - q0, d);
      assert false;
    } else if q < q0 {
      MulAtLeast(q0 - q, d);
      assert false;
    }
  }

  /** Stepping the dividend by one raises the quotient exactly when it reaches a multiple. */
  lemma DivStep(x: int, d: int)
    requires d > 0
    ensures (x + 1) / d == x / d + (if (x + 1) % d == 0 then 1 else 0)
  {
    var q, r := x / d, x % d;
    if r == d - 1 {
      ModUnique(x + 1, d, q + 1, 0);
    } else {
      ModUnique(x + 1, d, q, r + 1);
    }
  }

  /** A multiple of `k * m` is a multiple of `k`. */
  lemma MultipleOfFactor(y: int, k: int, m: int)
    requires k > 0 && m > 0 && y % (k * m) == 0
    ensures y % k == 0
  {
    var t := y / (k * m);
    assert y == (k * m) * t;
    assert y == (m * t) * k + 0;
    ModUnique(y, k, m * t, 0);
  }

  lemma LeapYearsStep(y: int)
    ensures LeapYearsBefore(y + 1) - LeapYearsBefore(y) == if IsLeapYear(y) then 1 else 0
  {
    DivStep(y - 1, 4);
    DivStep(y - 1, 100);
    DivStep(y - 1, 400);
    if y % 400 == 0 {
      MultipleOfFactor(y, 100, 4);
    }
    if y % 100 == 0 {
      MultipleOfFactor(y, 4, 25);
    }
  }

  /** Day numbers count consecutive days: the next day has the next number. */
  lemma DayNumberNext(d: CalendarDate)
    requires ValidDate(d)
    ensures DayNumber(NextDay(d)) == DayNumber(d) + 1
  {
    if d.day == DaysInMonth(d.year, d.month) && d.month == 12 {
      DaysInYear(d.year);
      LeapYearsStep(d.year);
    }
  }

  /** The weekday advances by one each calendar day, across month and year ends. */
  lemma WeekdayNext(d: CalendarDate)
    requires ValidDate(d)
    ensures WeekdayOf(NextDay(d)) == NextWeekday(WeekdayOf(d))
  {
    DayNumberNext(d);
    var k := DayNumber(d) + 3;
    ModSevenStep(k);
    assert WeekdayIndex(WeekdayOf(d)) == k % 7;
  }

  lemma ModSevenStep(k: int)
    ensures (k + 1) % 7 == (k % 7 + 1) % 7
  {
    var q, r := k / 7, k % 7;
    assert k == 7 * q + r;
    if r < 6 {
      assert k + 1 == 7 * q + (r + 1);
    } else {
      assert k + 1 == 7 * (q + 1);
    }
  }

  lemma WeekdayExamples()
    ensures ParseIsoDate("2026-03-02") == Some(CalendarDate(2026, 3, 2))
    ensures WeekdayOf(CalendarDate(1970, 1, 1)) == Thursday
    ensures WeekdayOf(CalendarDate(2026, 3, 1)) == Sunday
    ensures WeekdayOf(CalendarDate(2026, 3, 2)) == Monday
    ensures WeekdayOf(CalendarDate(2026, 3, 6)) == Friday
    ensures ParseIsoDate("2026-02-30").None? && ParseIsoDate("2026-3-02").None?
  {
    assert "2026-03-02"[..4] == "2026";
    assert "2026-02-30"[..4] == "2026";
  }

  lemma ParseIsoDateExamples()
    ensures ParseIsoDate("2026-03-01") == Some(CalendarDate(2026, 3, 1))
    ensures ParseIsoDate("2026-03-06") == Some(CalendarDate(2026, 3, 6))
  {
    assert "2026-03-01"[..4] == "2026";
    assert "2026-03-06"[..4] == "2026";
  }
}
