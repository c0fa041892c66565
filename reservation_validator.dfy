/**
 * `ReservationValidatorService`: the five fail-fast checks a requested booking must
 * pass. Each check is a function that either passes or yields the `BadRequest` the
 * service throws; `validateOpeningHours` also yields the shift the time falls in.
 *
 * Times are the zero-padded `HH:mm` strings the service receives. The service compares
 * them as strings (`>=`, `<`) and converts them to minutes only for arithmetic; the
 * lemmas below show that for well-formed times the two views agree.
 */
module ReservationValidator {
  import opened Wrappers
  import opened DomainErrors
  import opened Text
  import opened ValidationConstants
  import opened Calendar
  import opened ReservationEntity
  import opened SettingsEntity

  const MAX_ONLINE_GROUP_SIZE := 9
  const MINIMUM_ADVANCE_MS := 30 * 60 * 1000
  const MINIMUM_SERVICE_TIME := 60

  const GROUP_TOO_LARGE := "For groups of 10 or more please contact the restaurant directly"
  const TOO_LATE_TO_BOOK := "Reservations must be made at least 30 minutes in advance"

  predicate WellFormedShift(t: TimeRange) {
    IsTimeHHMM(t.open) && IsTimeHHMM(t.close)
  }

  /** Every stored shift passed the `HH:mm` check of the settings form. */
  predicate WellFormedHours(h: OpeningHours) {
    forall d | d in h :: forall i | 0 <= i < |h[d]| :: WellFormedShift(h[d][i])
  }

  // ----- minute arithmetic -------------------------------------------------------------

  /** `timeToMinutes`: minutes since midnight. */
  function TimeToMinutes(s: string): (m: nat)
    requires IsTimeHHMM(s)
    ensures m < 1440
  {
    Hours(s) * 60 + Minutes(s)
  }

  /** JavaScript's `a % 60`: the remainder takes the sign of `a`. */
  function JsRem60(a: int): (r: int)
    ensures a >= 0 ==> 0 <= r < 60
    ensures a < 0 ==> -60 < r <= 0
    ensures (a - r) % 60 == 0
  {
    if a >= 0 then a % 60 else -((-a) % 60)
  }

  /**
   * The clock string both helpers build from a minute count:
   * `Math.floor(total / 60)` and `total % 60`, each `toString()`ed and padded to two.
   */
  function FormatClock(total: int): string {
    PadStart2(IntToString(total / 60)) + ":" + PadStart2(IntToString(JsRem60(total)))
  }

  /** `subtractMinutes(time, minutes)`. */
  function SubtractMinutes(time: string, minutes: int): (r: string)
    requires IsTimeHHMM(time)
    ensures 0 <= TimeToMinutes(time) - minutes < 1440 ==>
      IsTimeHHMM(r) && TimeToMinutes(r) == TimeToMinutes(time) - minutes
  {
    var total := TimeToMinutes(time) - minutes;
    if 0 <= total < 1440 then
      FormatClockWellFormed(total);
      FormatClock(total)
    else FormatClock(total)
  }

  /** Two distinct multiples of `d` are at least `d` apart. */
  lemma MultiplesApart(a: int, b: int, d: int)
    requires d > 0 && a % d == 0 && b % d == 0 && a < b
    ensures b - a >= d
  {
    var qa, qb := a / d, b / d;
    assert b - a == (qb - qa) * d by {
      assert a == qa * d && b == qb * d;
      assert qb * d - qa * d == (qb - qa) * d;
    }
    assert qb > qa;
    MulAtLeast(qb - qa, d);
  }

  /** `Math.ceil(total / interval) * interval` for a non-negative total. */
  function NextSlot(total: nat, interval: nat): (next: nat)
    requires interval > 0
    ensures next % interval == 0
    ensures total <= next < total + interval
  {
    var q := (total + interval - 1) / interval;
    ModUnique(q * interval, interval, q, 0);
    q * interval
  }

  /** `getNextValidTime(time, interval)`. */
  function GetNextValidTime(time: string, interval: nat): (r: string)
    requires IsTimeHHMM(time) && interval > 0
    ensures NextSlot(TimeToMinutes(time), interval) < 1440 ==>
      && IsTimeHHMM(r)
      && TimeToMinutes(r) % interval == 0
      && TimeToMinutes(time) <= TimeToMinutes(r) < TimeToMinutes(time) + interval
  {
    var next := NextSlot(TimeToMinutes(time), interval);
    if next < 1440 then
      FormatClockWellFormed(next);
      FormatClock(next)
    else FormatClock(next)
  }

  /** `NextSlot` is the least multiple of the interval that is not before the time. */
  lemma NextSlotIsLeast(total: nat, interval: nat, k: int)
    requires interval > 0
    requires k % interval == 0 && k >= total
    ensures NextSlot(total, interval) <= k
  {
    if k < NextSlot(total, interval) {
      MultiplesApart(k, NextSlot(total, interval), interval);
    }
  }

  /** Formatting a minute of the day gives a well-formed time naming that minute. */
  lemma FormatClockWellFormed(m: int)
    requires 0 <= m < 1440
    ensures IsTimeHHMM(FormatClock(m))
    ensures TimeToMinutes(FormatClock(m)) == m
  {
    TwoDigits(m / 60);
    TwoDigits(m % 60);
  }

  /** Two digit characters, read as a number below 100 and written back padded, are themselves. */
  lemma DigitPairRoundTrip(a: char, b: char)
    requires IsDigit(a) && IsDigit(b)
    ensures PadStart2(IntToString(10 * DigitValue(a) + DigitValue(b))) == [a, b]
  {
    var x, y := DigitValue(a), DigitValue(b);
    var n := 10 * x + y;
    ModUnique(n, 10, x, y);
    TwoDigits(n);
    assert IntToString(n) == NatToDecimal(n);
    DigitCharOfValue(a);
    DigitCharOfValue(b);
  }

  /** The minutes of a well-formed time split back into its hour and minute fields. */
  lemma ClockFieldsOfTime(s: string)
    requires IsTimeHHMM(s)
    ensures TimeToMinutes(s) / 60 == Hours(s) && JsRem60(TimeToMinutes(s)) == Minutes(s)
  {
    var m := TimeToMinutes(s);
    assert Minutes(s) < 60 by {
      assert DigitValue(s[3]) <= 5;
    }
    ModUnique(m, 60, Hours(s), Minutes(s));
  }

  /** The hour field, read and written back padded, is itself. */
  lemma HourFieldRoundTrip(s: string)
    requires IsTimeHHMM(s)
    ensures PadStart2(IntToString(Hours(s))) == s[..2]
  {
    assert s[..2] == [s[0], s[1]];
    DigitPairRoundTrip(s[0], s[1]);
  }

  /** The minute field, read and written back padded, is itself. */
  lemma MinuteFieldRoundTrip(s: string)
    requires IsTimeHHMM(s)
    ensures PadStart2(IntToString(Minutes(s))) == s[3..]
  {
    assert s[3..] == [s[3], s[4]];
    DigitPairRoundTrip(s[3], s[4]);
  }

  /** A minute count is formatted from its hour and its remainder. */
  lemma FormatClockOfFields(m: int, h: int, mi: int)
    requires m / 60 == h && JsRem60(m) == mi
    ensures FormatClock(m) == PadStart2(IntToString(h)) + ":" + PadStart2(IntToString(mi))
  {
  }

  /** Formatting the minutes of a well-formed time gives back the same string. */
  lemma FormatClockOfTime(s: string)
    requires IsTimeHHMM(s)
    ensures FormatClock(TimeToMinutes(s)) == s
  {
    HourFieldRoundTrip(s);
    MinuteFieldRoundTrip(s);
    ClockFieldsOfTime(s);
    FormatClockOfFields(TimeToMinutes(s), Hours(s), Minutes(s));
    assert s == s[..2] + ":" + s[3..];
  }

  /** Distinct well-formed times name distinct minutes. */
  lemma TimeToMinutesInjective(a: string, b: string)
    requires IsTimeHHMM(a) && IsTimeHHMM(b)
    ensures TimeToMinutes(a) == TimeToMinutes(b) <==> a == b
  {
    if TimeToMinutes(a) == TimeToMinutes(b) {
      FormatClockOfTime(a);
      FormatClockOfTime(b);
    }
  }

  /** For well-formed times JavaScript's string `<` is the order of the minutes. */
  lemma TimeStringOrder(a: string, b: string)
    requires IsTimeHHMM(a) && IsTimeHHMM(b)
    ensures StrLess(a, b) <==> TimeToMinutes(a) < TimeToMinutes(b)
  {
    assert StrLess(a, b) <==> a[0] < b[0] || (a[0] == b[0] && StrLess(a[1..], b[1..]));
    assert StrLess(a[1..], b[1..]) <==> a[1] < b[1] || (a[1] == b[1] && StrLess(a[2..], b[2..])) by {
      assert a[1..][0] == a[1] && b[1..][0] == b[1] && a[1..][1..] == a[2..] && b[1..][1..] == b[2..];
    }
    assert StrLess(a[2..], b[2..]) == StrLess(a[3..], b[3..]) by {
      assert a[2..][0] == a[2] == ':' == b[2] == b[2..][0];
      assert a[2..][1..] == a[3..] && b[2..][1..] == b[3..];
    }
    assert StrLess(a[3..], b[3..]) == (a[3] < b[3] || (a[3] == b[3] && StrLess(a[4..], b[4..]))) by {
      assert a[3..][0] == a[3] && b[3..][0] == b[3];
      assert a[3..][1..] == a[4..] && b[3..][1..] == b[4..];
    }
    assert StrLess(a[4..], b[4..]) == (a[4] < b[4]) by {
      assert a[4..][0] == a[4] && b[4..][0] == b[4];
      assert a[4..][1..] == [] && b[4..][1..] == [];
    }
  }

  /** `JavaScript's a >= b` on well-formed times is the order of the minutes. */
  lemma TimeStringOrderEq(a: string, b: string)
    requires IsTimeHHMM(a) && IsTimeHHMM(b)
    ensures StrLessEq(a, b) <==> TimeToMinutes(a) <= TimeToMinutes(b)
  {
    TimeStringOrder(b, a);
  }

  // ----- validateGroupSize -------------------------------------------------------------

  function ValidateGroupSize(numberOfPeople: int): (r: Outcome)
    ensures r.Pass? <==> numberOfPeople <= MAX_ONLINE_GROUP_SIZE
    ensures r.Fail? ==> r.error == BadRequestError(GROUP_TOO_LARGE)
  {
    if numberOfPeople > MAX_ONLINE_GROUP_SIZE then Fail(BadRequestError(GROUP_TOO_LARGE)) else Pass
  }

  // ----- validateMinimumAdvanceTime ----------------------------------------------------

  /**
   * `new Date(`${date}T${time}:00`).getTime()`, in milliseconds since the epoch with the
   * host zone taken as UTC; `None` for the invalid date JavaScript produces from a
   * string that is not a calendar date.
   */
  function RequestedInstant(date: string, time: string): (t: Option<int>)
    requires IsTimeHHMM(time)
    ensures t.Some? <==> ParseIsoDate(date).Some?
  {
    match ParseIsoDate(date)
    case None => None
    case Some(d) => Some((DayNumber(d) * 1440 + TimeToMinutes(time)) * 60000)
  }

  /**
   * Fails iff the requested instant is less than 30 minutes after `nowMs`. An invalid date
   * makes the difference `NaN`, and `NaN < x` is false, so it passes.
   */
  function ValidateMinimumAdvanceTime(date: string, time: string, nowMs: int): (r: Outcome)
    requires IsTimeHHMM(time)
    ensures r.Fail? <==>
      RequestedInstant(date, time).Some? && RequestedInstant(date, time).value - nowMs < MINIMUM_ADVANCE_MS
    ensures r.Fail? ==> r.error == BadRequestError(TOO_LATE_TO_BOOK)
  {
    match RequestedInstant(date, time)
    case None => Pass
    case Some(t) => if t - nowMs < MINIMUM_ADVANCE_MS then Fail(BadRequestError(TOO_LATE_TO_BOOK)) else Pass
  }

  /** A valid date and time at least 30 minutes ahead passes, one already past fails. */
  lemma AdvanceTimeBoundary(date: string, time: string, nowMs: int)
    requires IsTimeHHMM(time) && ParseIsoDate(date).Some?
    ensures RequestedInstant(date, time).value == nowMs + MINIMUM_ADVANCE_MS ==>
      ValidateMinimumAdvanceTime(date, time, nowMs).Pass?
    ensures RequestedInstant(date, time).value <= nowMs ==>
      ValidateMinimumAdvanceTime(date, time, nowMs).Fail?
  {
  }

  /** Later bookings pass whenever earlier ones do. */
  lemma AdvanceTimeMonotone(date: string, time: string, nowMs: int, laterNow: int)
    requires IsTimeHHMM(time) && nowMs <= laterNow
    ensures ValidateMinimumAdvanceTime(date, time, laterNow).Pass? ==>
      ValidateMinimumAdvanceTime(date, time, nowMs).Pass?
  {
  }

  // ----- validateOpeningHours ----------------------------------------------------------

  /** Distinct weekdays have distinct names, none of them the invalid date's. */
  lemma WeekdayNameInjective()
    ensures forall v, w :: WeekdayName(v) == WeekdayName(w) ==> v == w
    ensures forall w :: WeekdayName(w) != "invalid date"
  {
  }

  function WeekdayName(w: Weekday): string {
    match w
    case Monday => "monday" case Tuesday => "tuesday" case Wednesday => "wednesday"
    case Thursday => "thursday" case Friday => "friday" case Saturday => "saturday"
    case Sunday => "sunday"
  }

  /**
   * The lower-cased long weekday name of `new Date(date)`; an invalid date prints as
   * "Invalid Date", lower-cased to "invalid date", which is no key of the opening hours.
   */
  function DayLabel(date: string): (name: string)
    ensures name == "invalid date" <==> ParseIsoDate(date).None?
    ensures ParseIsoDate(date).Some? ==> exists w :: WeekdayName(w) == name
  {
    match ParseIsoDate(date)
    case None => "invalid date"
    case Some(d) => WeekdayName(WeekdayOf(d))
  }

  /** `openingHours[dayOfWeek]`, with a missing entry read as no shifts. */
  function ScheduleFor(date: string, hours: OpeningHours): (s: seq<TimeRange>)
    ensures ParseIsoDate(date).None? ==> s == []
    ensures forall w | w in hours && WeekdayName(w) == DayLabel(date) :: s == hours[w]
    ensures s != [] ==> exists w :: w in hours && WeekdayName(w) == DayLabel(date) && s == hours[w]
  {
    WeekdayNameInjective();
    match ParseIsoDate(date)
    case None => []
    case Some(d) => if WeekdayOf(d) in hours then hours[WeekdayOf(d)] else []
  }

  /** `time >= shift.open && time < shift.close`, on strings. */
  predicate InShift(t: TimeRange, time: string) {
    StrLessEq(t.open, time) && StrLess(time, t.close)
  }

  /**
   * The settings form does not compare `open` with `close`, so a stored shift may close
   * at or before it opens; such a shift contains no time at all.
   */
  lemma InvertedShiftIsEmpty(t: TimeRange, time: string)
    requires WellFormedShift(t) && IsTimeHHMM(time)
    requires TimeToMinutes(t.close) <= TimeToMinutes(t.open)
    ensures !InShift(t, time)
  {
    TimeStringOrderEq(t.open, time);
    TimeStringOrder(time, t.close);
  }

  /** `daySchedule.find(...)`, as the index of the first shift containing `time`. */
  function FindShift(schedule: seq<TimeRange>, time: string, from: nat): (r: Option<nat>)
    requires from <= |schedule|
    ensures r.Some? ==> from <= r.value < |schedule| && InShift(schedule[r.value], time)
    ensures r.Some? ==> forall j :: from <= j < r.value ==> !InShift(schedule[j], time)
    ensures r.None? ==> forall j :: from <= j < |schedule| ==> !InShift(schedule[j], time)
    decreases |schedule| - from
  {
    if from == |schedule| then None
    else if InShift(schedule[from], time) then Some(from)
    else FindShift(schedule, time, from + 1)
  }

  function ClosedMessage(day: string): string {
    "Restaurant is closed on " + day + "s"
  }

  function NotOpenMessage(time: string, day: string): string {
    "Restaurant is not open at " + time + " on " + day + "s"
  }

  function LastReservationMessage(close: string): string
    requires IsTimeHHMM(close)
  {
    "Last reservation is at " + SubtractMinutes(close, MINIMUM_SERVICE_TIME)
  }

  /**
   * `validateOpeningHours`: the first shift of the date's weekday that contains the time,
   * provided it leaves at least 60 minutes before it closes.
   */
  function ValidateOpeningHours(date: string, time: string, hours: OpeningHours): (r: Result<TimeRange>)
    requires IsTimeHHMM(time) && WellFormedHours(hours)
    ensures ScheduleFor(date, hours) == [] ==> r == Err(BadRequestError(ClosedMessage(DayLabel(date))))
    ensures r.Ok? ==>
      var s := ScheduleFor(date, hours);
      exists i :: 0 <= i < |s| && s[i] == r.value && InShift(s[i], time)
        && (forall j :: 0 <= j < i ==> !InShift(s[j], time))
    ensures r.Ok? ==>
      && WellFormedShift(r.value)
      && TimeToMinutes(r.value.open) <= TimeToMinutes(time) < TimeToMinutes(r.value.close)
      && TimeToMinutes(r.value.close) - TimeToMinutes(time) >= MINIMUM_SERVICE_TIME
    ensures ScheduleFor(date, hours) != [] && FindShift(ScheduleFor(date, hours), time, 0).None? ==>
      r == Err(BadRequestError(NotOpenMessage(time, DayLabel(date))))
    ensures r.Err? && FindShift(ScheduleFor(date, hours), time, 0).Some? ==>
      var t := ScheduleFor(date, hours)[FindShift(ScheduleFor(date, hours), time, 0).value];
      WellFormedShift(t) && TimeToMinutes(t.close) - TimeToMinutes(time) < MINIMUM_SERVICE_TIME
      && r == Err(BadRequestError(LastReservationMessage(t.close)))
  {
    var schedule := ScheduleFor(date, hours);
    if schedule == [] then Err(BadRequestError(ClosedMessage(DayLabel(date))))
    else match FindShift(schedule, time, 0)
      case None => Err(BadRequestError(NotOpenMessage(time, DayLabel(date))))
      case Some(i) =>
        var shift := schedule[i];
        assert WellFormedShift(shift);
        TimeStringOrderEq(shift.open, time);
        TimeStringOrder(time, shift.close);
        if TimeToMinutes(shift.close) - TimeToMinutes(time) < MINIMUM_SERVICE_TIME
        then Err(BadRequestError(LastReservationMessage(shift.close)))
        else Ok(shift)
  }

  /** Every shift of the schedule is a stored, well-formed one. */
  lemma ScheduleWellFormed(date: string, hours: OpeningHours)
    requires WellFormedHours(hours)
    ensures forall i :: 0 <= i < |ScheduleFor(date, hours)| ==> WellFormedShift(ScheduleFor(date, hours)[i])
  {
  }

  // ----- validateTimeSlotInterval ------------------------------------------------------

  /**
   * With a zero interval `Math.ceil(total / 0) * 0` is NaN, and so is each field
   * formatted from it.
   */
  const NAN_CLOCK := "NaN:NaN"

  function MisalignedMessage(time: string, interval: nat): string
    requires IsTimeHHMM(time)
  {
    "Time must align with " + NatToDecimal(interval) + "-minute intervals. "
      + "Next valid time: " + (if interval == 0 then NAN_CLOCK else GetNextValidTime(time, interval))
  }

  /**
   * Passes iff the minutes since midnight are a multiple of the interval. A zero interval
   * makes the remainder NaN, which differs from 0, so every time fails.
   */
  function ValidateTimeSlotInterval(time: string, interval: nat): (r: Outcome)
    requires IsTimeHHMM(time)
    ensures r.Pass? <==> interval > 0 && TimeToMinutes(time) % interval == 0
    ensures r.Fail? ==> r.error == BadRequestError(MisalignedMessage(time, interval))
  {
    if interval == 0 || TimeToMinutes(time) % interval != 0 then
      Fail(BadRequestError(MisalignedMessage(time, interval)))
    else Pass
  }

  /** A time that passes is its own next valid time. */
  lemma AlignedTimeIsItsOwnNextSlot(time: string, interval: nat)
    requires IsTimeHHMM(time) && interval > 0
    requires ValidateTimeSlotInterval(time, interval).Pass?
    ensures GetNextValidTime(time, interval) == time
  {
    NextSlotIsLeast(TimeToMinutes(time), interval, TimeToMinutes(time));
    FormatClockOfTime(time);
  }

  /** The suggested next time is itself aligned, whenever it is still a time of the day. */
  lemma SuggestedTimeIsAligned(time: string, interval: nat)
    requires IsTimeHHMM(time) && interval > 0
    requires NextSlot(TimeToMinutes(time), interval) < 1440
    ensures IsTimeHHMM(GetNextValidTime(time, interval))
    ensures ValidateTimeSlotInterval(GetNextValidTime(time, interval), interval).Pass?
  {
    FormatClockWellFormed(NextSlot(TimeToMinutes(time), interval));
  }

  // ----- validateCapacity --------------------------------------------------------------

  /** The filter of `validateCapacity`: inside `[open, close)` and neither cancelled nor rejected. */
  predicate Occupies(shift: TimeRange, r: ReservationProps) {
    InShift(shift, r.time) && r.status != CANCELLED && r.status != REJECTED
  }

  /** The `reduce` of `validateCapacity`: party sizes summed over the filtered reservations. */
  function Occupancy(shift: TimeRange, rs: seq<ReservationProps>): (n: int)
    ensures (forall i :: 0 <= i < |rs| ==> !Occupies(shift, rs[i])) ==> n == 0
    ensures (forall i :: 0 <= i < |rs| ==> rs[i].numberOfPeople >= 0) ==> n >= 0
  {
    if rs == [] then 0
    else Occupancy(shift, rs[..|rs| - 1]) + (if Occupies(shift, rs[|rs| - 1]) then rs[|rs| - 1].numberOfPeople else 0)
  }

  function CapacityMessage(available: int): string {
    "No capacity available for this shift. Available: " + IntToString(available) + " people"
  }

  /** Fails iff the new party does not fit beside the occupied seats; a full fit passes. */
  function ValidateCapacity(numberOfPeople: int, shift: TimeRange, existing: seq<ReservationProps>): (r: Outcome)
    ensures r.Pass? <==> Occupancy(shift, existing) + numberOfPeople <= shift.capacity
    ensures r.Fail? ==> r.error == BadRequestError(CapacityMessage(shift.capacity - Occupancy(shift, existing)))
  {
    var occupied := Occupancy(shift, existing);
    if occupied + numberOfPeople > shift.capacity then Fail(BadRequestError(CapacityMessage(shift.capacity - occupied)))
    else Pass
  }

  /** Occupancy adds up over a split list. */
  lemma {:induction false} OccupancyAppend(shift: TimeRange, a: seq<ReservationProps>, b: seq<ReservationProps>)
    ensures Occupancy(shift, a + b) == Occupancy(shift, a) + Occupancy(shift, b)
    decreases |b|
  {
    if b == [] {
      assert a + b == a;
    } else {
      assert (a + b)[..|a + b| - 1] == a + b[..|b| - 1];
      OccupancyAppend(shift, a, b[..|b| - 1]);
    }
  }

  /** Only reservations of the shift that are pending or confirmed take seats. */
  lemma OccupancyOfOne(shift: TimeRange, r: ReservationProps)
    ensures Occupancy(shift, [r]) == if Occupies(shift, r) then r.numberOfPeople else 0
  {
    assert [r][..0] == [];
  }

  /** Occupancy does not depend on the order the reservations were loaded in. */
  lemma {:induction false} OccupancyPermutation(shift: TimeRange, a: seq<ReservationProps>, b: seq<ReservationProps>)
    requires multiset(a) == multiset(b)
    ensures Occupancy(shift, a) == Occupancy(shift, b)
    decreases |a|
  {
    if a != [] {
      var x := a[|a| - 1];
      var a' := a[..|a| - 1];
      assert a == a' + [x];
      assert x in multiset(b);
      var k :| 0 <= k < |b| && b[k] == x;
      var b' := b[..k] + b[k + 1..];
      assert b == b[..k] + [x] + b[k + 1..];
      assert multiset(a') == multiset(b') by {
        assert multiset(a) == multiset(a') + multiset{x};
        assert multiset(b) == multiset(b[..k]) + multiset{x} + multiset(b[k + 1..]);
        assert multiset(b') == multiset(b[..k]) + multiset(b[k + 1..]);
        assert multiset(a') == multiset(a) - multiset{x};
        assert multiset(b') == multiset(b) - multiset{x};
      }
      OccupancyPermutation(shift, a', b');
      OccupancyAppend(shift, b[..k] + [x], b[k + 1..]);
      OccupancyAppend(shift, b[..k], [x]);
      OccupancyAppend(shift, b[..k], b[k + 1..]);
      OccupancyOfOne(shift, x);
    }
  }

  /**
   * Admitting a party that passes the check, as a pending or confirmed reservation at a
   * time of that shift, leaves the shift within its capacity.
   */
  lemma AdmissionKeepsCapacity(shift: TimeRange, existing: seq<ReservationProps>, r: ReservationProps)
    requires ValidateCapacity(r.numberOfPeople, shift, existing).Pass?
    requires InShift(shift, r.time) && (r.status == PENDING || r.status == CONFIRMED)
    ensures Occupancy(shift, existing + [r]) <= shift.capacity
  {
    OccupancyAppend(shift, existing, [r]);
    OccupancyOfOne(shift, r);
  }

  /** With well-formed times the filter is the minute interval `[open, close)`. */
  lemma OccupiesByMinutes(shift: TimeRange, r: ReservationProps)
    requires WellFormedShift(shift) && IsTimeHHMM(r.time)
    ensures Occupies(shift, r) <==>
      TimeToMinutes(shift.open) <= TimeToMinutes(r.time) < TimeToMinutes(shift.close)
      && (r.status == PENDING || r.status == CONFIRMED)
  {
    TimeStringOrderEq(shift.open, r.time);
    TimeStringOrder(r.time, shift.close);
  }

  // ----- worked examples ---------------------------------------------------------------

  /** A week with lunch service, a second Friday shift and Sundays closed. */
  function SampleWeek(): OpeningHours {
    var lunch := TimeRange("13:00", "16:00", 20);
    map[Monday := [lunch], Tuesday := [lunch], Wednesday := [lunch], Thursday := [lunch],
        Friday := [lunch, TimeRange("20:00", "23:00", 30)], Saturday := [lunch], Sunday := []]
  }

  lemma SampleWeekWellFormed()
    ensures WellFormedHours(SampleWeek())
  {
    assert IsTimeHHMM("13:00") && IsTimeHHMM("16:00") && IsTimeHHMM("20:00") && IsTimeHHMM("23:00");
  }

  lemma SampleMonday()
    ensures DayLabel("2026-03-02") == "monday"
    ensures ScheduleFor("2026-03-02", SampleWeek()) == [TimeRange("13:00", "16:00", 20)]
  {
    WeekdayExamples();
  }

  lemma SampleFriday()
    ensures DayLabel("2026-03-06") == "friday"
    ensures ScheduleFor("2026-03-06", SampleWeek())
      == [TimeRange("13:00", "16:00", 20), TimeRange("20:00", "23:00", 30)]
  {
    ParseIsoDateExamples();
    WeekdayExamples();
  }

  lemma SampleSunday()
    ensures DayLabel("2026-03-01") == "sunday"
    ensures ScheduleFor("2026-03-01", SampleWeek()) == []
  {
    ParseIsoDateExamples();
    WeekdayExamples();
  }

  /** Monday 2026-03-02 at 13:00 opens the lunch shift. */
  lemma MondayLunchExample()
    ensures ValidateOpeningHours("2026-03-02", "13:00", SampleWeek()) == Ok(TimeRange("13:00", "16:00", 20))
  {
    SampleWeekWellFormed();
    SampleMonday();
    TimeStringOrderEq("13:00", "13:00");
    TimeStringOrder("13:00", "16:00");
  }

  /** Sunday 2026-03-01 has no shifts. */
  lemma SundayClosedExample()
    ensures ValidateOpeningHours("2026-03-01", "13:00", SampleWeek())
      == Err(BadRequestError("Restaurant is closed on sundays"))
  {
    SampleWeekWellFormed();
    SampleSunday();
    assert ClosedMessage("sunday") == "Restaurant is closed on sundays";
  }

  /** Monday at 18:00 falls between shifts. */
  lemma BetweenShiftsExample()
    ensures ValidateOpeningHours("2026-03-02", "18:00", SampleWeek())
      == Err(BadRequestError("Restaurant is not open at 18:00 on mondays"))
  {
    SampleWeekWellFormed();
    SampleMonday();
    NoLunchAtSix();
    NotOpenAtSixMessage();
  }

  lemma NotOpenAtSixMessage()
    ensures NotOpenMessage("18:00", "monday") == "Restaurant is not open at 18:00 on mondays"
  {
  }

  lemma NoLunchAtSix()
    ensures FindShift([TimeRange("13:00", "16:00", 20)], "18:00", 0).None?
  {
    TimeStringOrder("18:00", "16:00");
  }

  lemma EveningShiftAt(time: string)
    requires time == "20:00" || time == "22:30"
    ensures FindShift([TimeRange("13:00", "16:00", 20), TimeRange("20:00", "23:00", 30)], time, 0) == Some(1)
  {
    TimeStringOrder(time, "16:00");
    TimeStringOrderEq("20:00", time);
    TimeStringOrder(time, "23:00");
  }

  lemma LastReservationAtTen()
    ensures LastReservationMessage("23:00") == "Last reservation is at 22:00"
  {
    assert TimeToMinutes("23:00") - 60 == 22 * 60;
    assert TimeToMinutes("22:00") == 22 * 60;
    FormatClockOfTime("22:00");
  }

  /** Friday 2026-03-06 at 22:30 is inside the evening shift but too close to 23:00. */
  lemma LastReservationExample()
    ensures ValidateOpeningHours("2026-03-06", "22:30", SampleWeek())
      == Err(BadRequestError("Last reservation is at 22:00"))
  {
    SampleWeekWellFormed();
    SampleFriday();
    EveningShiftAt("22:30");
    LastReservationAtTen();
  }

  /** Friday at 20:00 skips the lunch shift and opens the evening one. */
  lemma SecondShiftExample()
    ensures ValidateOpeningHours("2026-03-06", "20:00", SampleWeek()) == Ok(TimeRange("20:00", "23:00", 30))
  {
    SampleWeekWellFormed();
    SampleFriday();
    EveningShiftAt("20:00");
  }

  /** The suggestion after 13:15 on a 30-minute grid is 13:30. */
  lemma NextValidTimeExample()
    ensures GetNextValidTime("13:15", 30) == "13:30"
  {
    assert TimeToMinutes("13:15") == 795;
    assert NextSlot(795, 30) == 810 by { NextSlotIsLeast(795, 30, 810); }
    assert TimeToMinutes("13:30") == 810;
    FormatClockOfTime("13:30");
  }

  /** Near midnight the suggestion runs past the day: 23:50 on a 30-minute grid gives "24:00". */
  lemma NextValidTimePastMidnightExample()
    ensures GetNextValidTime("23:50", 30) == "24:00"
  {
    assert TimeToMinutes("23:50") == 1430;
    assert NextSlot(1430, 30) == 1440 by { NextSlotIsLeast(1430, 30, 1440); }
    assert 1440 / 60 == 24 && JsRem60(1440) == 0;
    TwoDigits(24);
    TwoDigits(0);
  }

  /** A shift closing before 01:00 names a negative clock: "-1:-30" for a 00:30 close. */
  lemma NegativeLastReservationExample()
    ensures SubtractMinutes("00:30", 60) == "-1:-30"
  {
    assert TimeToMinutes("00:30") == 30;
    assert -30 / 60 == -1 && JsRem60(-30) == -30;
    assert NatToDecimal(1) == "1";
    assert NatToDecimal(30) == "30" by { TwoDigits(30); }
  }

  /** A stored booking of `n` people at `time` on 2026-03-02. */
  function SampleBooking(time: string, n: int, status: ReservationStatus): ReservationProps {
    ReservationProps("res-id", "restaurant-id", "2026-03-02", time, n, "Mario", "Rivera",
      "mario@test.com", "+34600000001", None, status, 0.0, Some(PaymentPending), None, None, None,
      None, "token", None, None)
  }

  lemma LunchShiftTimes()
    ensures InShift(TimeRange("13:00", "16:00", 10), "13:00")
    ensures InShift(TimeRange("13:00", "16:00", 10), "13:30")
    ensures InShift(TimeRange("13:00", "16:00", 10), "14:00")
    ensures !InShift(TimeRange("13:00", "16:00", 10), "20:00")
  {
    TimeStringOrderEq("13:00", "13:00");
    TimeStringOrder("13:00", "16:00");
    TimeStringOrderEq("13:00", "13:30");
    TimeStringOrder("13:30", "16:00");
    TimeStringOrderEq("13:00", "14:00");
    TimeStringOrder("14:00", "16:00");
    TimeStringOrder("20:00", "16:00");
  }

  /** Filling the shift exactly passes, one seat more fails; inactive or other-shift bookings take no seats. */
  lemma CapacityExamples()
    ensures ValidateCapacity(3, TimeRange("13:00", "16:00", 10), [SampleBooking("13:00", 7, CONFIRMED)]).Pass?
    ensures ValidateCapacity(3, TimeRange("13:00", "16:00", 10), [SampleBooking("13:00", 8, CONFIRMED)]).Fail?
    ensures ValidateCapacity(5, TimeRange("13:00", "16:00", 10), [SampleBooking("13:00", 8, CANCELLED)]).Pass?
    ensures ValidateCapacity(5, TimeRange("13:00", "16:00", 10), [SampleBooking("13:00", 8, REJECTED)]).Pass?
    ensures ValidateCapacity(5, TimeRange("13:00", "16:00", 10), [SampleBooking("20:00", 8, CONFIRMED)]).Pass?
    ensures ValidateCapacity(5, TimeRange("13:00", "16:00", 10),
      [SampleBooking("13:00", 3, CONFIRMED), SampleBooking("14:00", 3, CONFIRMED),
       SampleBooking("13:30", 2, CANCELLED)]).Fail?
  {
    var shift := TimeRange("13:00", "16:00", 10);
    LunchShiftTimes();
    OccupancyOfOne(shift, SampleBooking("13:00", 7, CONFIRMED));
    OccupancyOfOne(shift, SampleBooking("13:00", 8, CONFIRMED));
    OccupancyOfOne(shift, SampleBooking("13:00", 8, CANCELLED));
    OccupancyOfOne(shift, SampleBooking("13:00", 8, REJECTED));
    OccupancyOfOne(shift, SampleBooking("20:00", 8, CONFIRMED));
    var three := [SampleBooking("13:00", 3, CONFIRMED), SampleBooking("14:00", 3, CONFIRMED),
      SampleBooking("13:30", 2, CANCELLED)];
    assert three == [three[0]] + [three[1]] + [three[2]];
    OccupancyAppend(shift, [three[0]] + [three[1]], [three[2]]);
    OccupancyAppend(shift, [three[0]], [three[1]]);
    OccupancyOfOne(shift, three[0]);
    OccupancyOfOne(shift, three[1]);
    OccupancyOfOne(shift, three[2]);
  }

  lemma GroupSizeExamples()
    ensures ValidateGroupSize(1).Pass? && ValidateGroupSize(9).Pass?
    ensures ValidateGroupSize(10).Fail? && ValidateGroupSize(20).Fail?
  {
  }

  lemma TimeSlotExamples()
    ensures ValidateTimeSlotInterval("13:00", 30).Pass? && ValidateTimeSlotInterval("13:30", 30).Pass?
    ensures ValidateTimeSlotInterval("13:15", 30).Fail? && ValidateTimeSlotInterval("13:45", 30).Fail?
    ensures ValidateTimeSlotInterval("13:45", 15).Pass? && ValidateTimeSlotInterval("14:00", 60).Pass?
    ensures ValidateTimeSlotInterval("14:30", 60).Fail?
  {
    assert TimeToMinutes("13:00") == 780 && TimeToMinutes("13:30") == 810;
    assert TimeToMinutes("13:15") == 795 && TimeToMinutes("13:45") == 825;
    assert TimeToMinutes("14:00") == 840 && TimeToMinutes("14:30") == 870;
  }
}
