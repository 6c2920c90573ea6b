/**
 * The parts of Python's naive `datetime` that the collectors and the overview rely on.
 *
 * A moment is an `Instant`: whole microseconds since 0001-01-01T00:00:00
 * (`datetime.min`), below 10000-01-01T00:00:00 (one past `datetime.max`).
 * `DateTimeOf` turns an instant into the calendar record that `isoformat`
 * renders; `Before` is the order in which CPython compares two datetimes
 * (field by field, year first).
 */
module DateTimes {
  import opened Common

  const MICROS_PER_SECOND: int := 1_000_000
  const MICROS_PER_MINUTE: int := 60_000_000
  const MICROS_PER_HOUR: int := 3_600_000_000
  const MICROS_PER_DAY: int := 86_400_000_000
  /** Number of days from 0001-01-01 up to 10000-01-01. */
  const MAX_DAYS: int := 3_652_059
  const MAX_INSTANT: int := 315_537_897_600_000_000

  type Instant = t: int | 0 <= t < MAX_INSTANT

  datatype DateTime = DateTime(year: nat, month: nat, day: nat,
                               hour: nat, minute: nat, second: nat, microsecond: nat)

  predicate IsLeapYear(y: int) {
    y % 4 == 0 && (y % 100 != 0 || y % 400 == 0)
  }

  function DaysInYear(y: int): int {
    if IsLeapYear(y) then 366 else 365
  }

  function DaysInMonth(y: int, m: int): int
    requires 1 <= m <= 12
  {
    if m == 2 then (if IsLeapYear(y) then 29 else 28)
    else if m == 4 || m == 6 || m == 9 || m == 11 then 30
    else 31
  }

  /** The field ranges that every Python `datetime` satisfies. */
  predicate Valid(d: DateTime) {
    && 1 <= d.year <= 9999
    && 1 <= d.month <= 12
    && 1 <= d.day <= DaysInMonth(d.year, d.month)
    && d.hour < 24 && d.minute < 60 && d.second < 60 && d.microsecond < 1_000_000
  }

  // ---------------------------------------------------------------------
  // Comparison

  function Fields(d: DateTime): seq<int> {
    [d.year, d.month, d.day, d.hour, d.minute, d.second, d.microsecond]
  }

  /** Python's tuple `<` on integer tuples. */
  predicate TupleLess(a: seq<int>, b: seq<int>) {
    if a == [] then b != []
    else b != [] && (a[0] < b[0] || (a[0] == b[0] && TupleLess(a[1..], b[1..])))
  }

  /** `a < b` for two naive datetimes. */
  predicate Before(a: DateTime, b: DateTime) {
    TupleLess(Fields(a), Fields(b))
  }

  lemma {:induction false} TupleLessIrreflexive(a: seq<int>)
    ensures !TupleLess(a, a)
  {
    if a != [] { TupleLessIrreflexive(a[1..]); }
  }

  lemma {:induction false} TupleLessTransitive(a: seq<int>, b: seq<int>, c: seq<int>)
    requires TupleLess(a, b) && TupleLess(b, c)
    ensures TupleLess(a, c)
  {
    if a != [] && a[0] == b[0] && b[0] == c[0] {
      TupleLessTransitive(a[1..], b[1..], c[1..]);
    }
  }

  lemma {:induction false} TupleLessTotal(a: seq<int>, b: seq<int>)
    requires |a| == |b|
    ensures TupleLess(a, b) || TupleLess(b, a) || a == b
  {
    if a != [] && a[0] == b[0] {
      TupleLessTotal(a[1..], b[1..]);
      if a[1..] == b[1..] {
        assert a == [a[0]] + a[1..] && b == [b[0]] + b[1..];
      }
    }
  }

  /** `Before` is a strict total order on datetimes. */
  lemma BeforeIrreflexive(a: DateTime)
    ensures !Before(a, a)
  {
    TupleLessIrreflexive(Fields(a));
  }

  lemma BeforeTransitive(a: DateTime, b: DateTime, c: DateTime)
    requires Before(a, b) && Before(b, c)
    ensures Before(a, c)
  {
    TupleLessTransitive(Fields(a), Fields(b), Fields(c));
  }

  lemma BeforeTotal(a: DateTime, b: DateTime)
    ensures Before(a, b) || Before(b, a) || a == b
  {
    TupleLessTotal(Fields(a), Fields(b));
    if Fields(a) == Fields(b) {
      assert Fields(a)[0] == Fields(b)[0] && Fields(a)[1] == Fields(b)[1] && Fields(a)[2] == Fields(b)[2];
      assert Fields(a)[3] == Fields(b)[3] && Fields(a)[4] == Fields(b)[4];
      assert Fields(a)[5] == Fields(b)[5] && Fields(a)[6] == Fields(b)[6];
    }
  }

  // ---------------------------------------------------------------------
  // Calendar

  /** Days from 0001-01-01 to January 1st of year `y` (`_days_before_year`). */
  function DaysBeforeYear(y: int): int
    requires y >= 1
  {
    var n := y - 1;
    365 * n + n / 4 - n / 100 + n / 400
  }

  /** Days from January 1st to the first of month `m`; `m == 13` gives the year's length. */
  function DaysBeforeMonth(y: int, m: int): int
    requires 1 <= m <= 13
  {
    [0, 31, 59, 90, 120, 151, 181, 212, 243, 273, 304, 334, 365][m - 1]
      + (if m > 2 && IsLeapYear(y) then 1 else 0)
  }

  lemma YearStep(y: int)
    requires y >= 1
    ensures DaysBeforeYear(y + 1) == DaysBeforeYear(y) + DaysInYear(y)
  {
    var n := y - 1;
    assert (n + 1) / 4 == n / 4 + (if y % 4 == 0 then 1 else 0);
    assert (n + 1) / 100 == n / 100 + (if y % 100 == 0 then 1 else 0);
    assert (n + 1) / 400 == n / 400 + (if y % 400 == 0 then 1 else 0);
  }

  lemma MonthStep(y: int, m: int)
    requires 1 <= m <= 12
    ensures DaysBeforeMonth(y, m + 1) == DaysBeforeMonth(y, m) + DaysInMonth(y, m)
  {
  }

  lemma {:induction false} DaysBeforeYearMonotone(a: int, b: int)
    requires 1 <= a <= b
    ensures DaysBeforeYear(a) + 365 * (b - a) <= DaysBeforeYear(b)
    decreases b - a
  {
    if a < b {
      DaysBeforeYearMonotone(a, b - 1);
      YearStep(b - 1);
    }
  }

  /** The year holding day number `days`, searched upward from year `y`. */
  function FindYear(days: int, y: int): (r: int)
    requires 1 <= y && DaysBeforeYear(y) <= days
    ensures y <= r && DaysBeforeYear(r) <= days < DaysBeforeYear(r + 1)
    decreases days - DaysBeforeYear(y)
  {
    YearStep(y);
    if days < DaysBeforeYear(y + 1) then y else FindYear(days, y + 1)
  }

  /** The month holding day `doy` of year `y`, searched upward from month `m`. */
  function FindMonth(y: int, doy: int, m: int): (r: int)
    requires 1 <= m <= 12 && DaysBeforeMonth(y, m) <= doy < DaysBeforeMonth(y, 13)
    ensures m <= r <= 12 && DaysBeforeMonth(y, r) <= doy < DaysBeforeMonth(y, r + 1)
    decreases 12 - m
  {
    if doy < DaysBeforeMonth(y, m + 1) then m else FindMonth(y, doy, m + 1)
  }

  /** The calendar record of an instant (`datetime.min + timedelta(microseconds=t)`). */
  function DateTimeOf(t: Instant): (d: DateTime)
    ensures Valid(d)
  {
    var days := t / MICROS_PER_DAY;
    var rem := t % MICROS_PER_DAY;
    assert DaysBeforeYear(1) == 0;
    var y := FindYear(days, 1);
    assert y <= 9999 by {
      if y >= 10000 {
        DaysBeforeYearMonotone(10000, y);
      }
    }
    YearStep(y);
    var doy := days - DaysBeforeYear(y);
    var m := FindMonth(y, doy, 1);
    MonthStep(y, m);
    DateTime(y, m, doy - DaysBeforeMonth(y, m) + 1,
             rem / MICROS_PER_HOUR, rem % MICROS_PER_HOUR / MICROS_PER_MINUTE,
             rem % MICROS_PER_MINUTE / MICROS_PER_SECOND, rem % MICROS_PER_SECOND)
  }

  /** The instant of a calendar record (the inverse of `DateTimeOf`). */
  function InstantOf(d: DateTime): int
    requires Valid(d)
  {
    (DaysBeforeYear(d.year) + DaysBeforeMonth(d.year, d.month) + d.day - 1) * MICROS_PER_DAY
      + d.hour * MICROS_PER_HOUR + d.minute * MICROS_PER_MINUTE
      + d.second * MICROS_PER_SECOND + d.microsecond
  }

  lemma InstantOfDateTimeOf(t: Instant)
    ensures InstantOf(DateTimeOf(t)) == t
  {
    var d := DateTimeOf(t);
    var days := t / MICROS_PER_DAY;
    var rem := t % MICROS_PER_DAY;
    assert DaysBeforeYear(d.year) + DaysBeforeMonth(d.year, d.month) + d.day - 1 == days;
    ClockFields(rem);
    assert d.hour * MICROS_PER_HOUR + d.minute * MICROS_PER_MINUTE
      + d.second * MICROS_PER_SECOND + d.microsecond == rem;
  }

  /**
   * Every valid calendar record is the record of exactly one instant: its
   * instant is in range and renders back as the same record. With
   * `InstantOfDateTimeOf`, the two representations are one.
   */
  lemma DateTimeOfInstantOf(d: DateTime)
    requires Valid(d)
    ensures 0 <= InstantOf(d) < MAX_INSTANT
    ensures DateTimeOf(InstantOf(d)) == d
  {
    DayNumberYear(d);
    DayNumberMonth(d);
    ClockOfFields(d);
    assert InstantOf(d) == DayNumber(d) * MICROS_PER_DAY + ClockOf(d);
    DayDivMod(InstantOf(d), DayNumber(d), ClockOf(d));
    DateTimeOfParts(InstantOf(d), d);
  }

  /** The record of `t`, once its day number and clock are known to be those of `d`. */
  lemma DateTimeOfParts(t: Instant, d: DateTime)
    requires Valid(d)
    requires t / MICROS_PER_DAY == DayNumber(d) && t % MICROS_PER_DAY == ClockOf(d)
    requires FindYear(DayNumber(d), 1) == d.year
    requires FindMonth(d.year, DayNumber(d) - DaysBeforeYear(d.year), 1) == d.month
    requires ClockOf(d) / MICROS_PER_HOUR == d.hour
    requires ClockOf(d) % MICROS_PER_HOUR / MICROS_PER_MINUTE == d.minute
    requires ClockOf(d) % MICROS_PER_MINUTE / MICROS_PER_SECOND == d.second
    requires ClockOf(d) % MICROS_PER_SECOND == d.microsecond
    ensures DateTimeOf(t) == d
  {
  }

  /** The day of a calendar record, counted from 0001-01-01. */
  function DayNumber(d: DateTime): int
    requires Valid(d)
  {
    DaysBeforeYear(d.year) + DaysBeforeMonth(d.year, d.month) + d.day - 1
  }

  /** The microseconds of a calendar record since its midnight. */
  function ClockOf(d: DateTime): int {
    d.hour * MICROS_PER_HOUR + d.minute * MICROS_PER_MINUTE + d.second * MICROS_PER_SECOND + d.microsecond
  }

  /** The day of a record lies in its own year, and the year search finds that year. */
  lemma DayNumberYear(d: DateTime)
    requires Valid(d)
    ensures 0 <= DayNumber(d) < MAX_DAYS
    ensures DaysBeforeYear(d.year) <= DayNumber(d) < DaysBeforeYear(d.year + 1)
    ensures FindYear(DayNumber(d), 1) == d.year
  {
    var y := d.year;
    MonthStep(y, d.month);
    DaysBeforeMonthMonotone(y, d.month + 1, 13);
    YearStep(y);
    DaysBeforeYearMonotone(y + 1, 10000);
    assert DaysBeforeYear(10000) == MAX_DAYS;
    assert DaysBeforeYear(1) == 0;
    DaysBeforeYearMonotone(1, y);
    FindYearUnique(DayNumber(d), 1, y);
  }

  /** The month search finds the record's own month. */
  lemma DayNumberMonth(d: DateTime)
    requires Valid(d)
    ensures FindMonth(d.year, DayNumber(d) - DaysBeforeYear(d.year), 1) == d.month
  {
    var y, m := d.year, d.month;
    MonthStep(y, m);
    DaysBeforeMonthMonotone(y, m + 1, 13);
    FindMonthUnique(y, DaysBeforeMonth(y, m) + d.day - 1, 1, m);
  }

  /** The clock fields read back off the microseconds since midnight. */
  lemma ClockOfFields(d: DateTime)
    requires Valid(d)
    ensures 0 <= ClockOf(d) < MICROS_PER_DAY
    ensures ClockOf(d) / MICROS_PER_HOUR == d.hour
    ensures ClockOf(d) % MICROS_PER_HOUR / MICROS_PER_MINUTE == d.minute
    ensures ClockOf(d) % MICROS_PER_MINUTE / MICROS_PER_SECOND == d.second
    ensures ClockOf(d) % MICROS_PER_SECOND == d.microsecond
  {
    HourDivMod(ClockOf(d), d.hour, d.minute * MICROS_PER_MINUTE + d.second * MICROS_PER_SECOND + d.microsecond);
    SubHourRemainders(ClockOf(d), d.minute, d.second, d.microsecond);
  }

  lemma DaysBeforeMonthMonotone(y: int, a: int, b: int)
    requires 1 <= a <= b <= 13
    ensures DaysBeforeMonth(y, a) <= DaysBeforeMonth(y, b)
  {
  }

  /** `FindYear` finds the one year whose days contain `days`. */
  lemma FindYearUnique(days: int, y0: int, y: int)
    requires 1 <= y0 && DaysBeforeYear(y0) <= days
    requires 1 <= y && DaysBeforeYear(y) <= days < DaysBeforeYear(y + 1)
    ensures FindYear(days, y0) == y
  {
    var r := FindYear(days, y0);
    if r < y {
      LaterYearsStartLater(r, y, days);
    } else if r > y {
      LaterYearsStartLater(y, r, days);
    }
  }

  /** A day before the end of year `a` is before the start of every later year. */
  lemma LaterYearsStartLater(a: int, b: int, days: int)
    requires 1 <= a < b && days < DaysBeforeYear(a + 1)
    ensures days < DaysBeforeYear(b)
  {
    DaysBeforeYearMonotone(a + 1, b);
  }

  /** `FindMonth` finds the one month whose days contain `doy`. */
  lemma FindMonthUnique(y: int, doy: int, m0: int, m: int)
    requires 1 <= m0 <= 12 && DaysBeforeMonth(y, m0) <= doy < DaysBeforeMonth(y, 13)
    requires 1 <= m <= 12 && DaysBeforeMonth(y, m) <= doy < DaysBeforeMonth(y, m + 1)
    ensures FindMonth(y, doy, m0) == m
  {
    var r := FindMonth(y, doy, m0);
    if r < m {
      DaysBeforeMonthMonotone(y, r + 1, m);
    } else if r > m {
      DaysBeforeMonthMonotone(y, m + 1, r);
    }
  }

  /** Quotient and remainder by one day are the only such pair. */
  lemma DayDivMod(a: int, q: int, m: int)
    requires 0 <= m < MICROS_PER_DAY && a == q * MICROS_PER_DAY + m
    ensures a / MICROS_PER_DAY == q && a % MICROS_PER_DAY == m
  {
  }

  /** A time of day is the sum of its hour, minute, second and microsecond fields. */
  lemma ClockFields(rem: int)
    requires rem >= 0
    ensures rem == rem / MICROS_PER_HOUR * MICROS_PER_HOUR + rem % MICROS_PER_HOUR / MICROS_PER_MINUTE * MICROS_PER_MINUTE
                   + rem % MICROS_PER_MINUTE / MICROS_PER_SECOND * MICROS_PER_SECOND + rem % MICROS_PER_SECOND
  {
    MinuteDivMod(rem, rem / MICROS_PER_HOUR * 60 + rem % MICROS_PER_HOUR / MICROS_PER_MINUTE,
                 rem % MICROS_PER_HOUR % MICROS_PER_MINUTE);
    SecondDivMod(rem, rem / MICROS_PER_MINUTE * 60 + rem % MICROS_PER_MINUTE / MICROS_PER_SECOND,
                 rem % MICROS_PER_MINUTE % MICROS_PER_SECOND);
  }

  /** The fields below the day read the same off an instant as off its remainder modulo one day. */
  lemma DayRemainderFields(t: int)
    requires t >= 0
    ensures t % MICROS_PER_DAY % MICROS_PER_HOUR == t % MICROS_PER_HOUR
    ensures t % MICROS_PER_DAY % MICROS_PER_MINUTE == t % MICROS_PER_MINUTE
    ensures t % MICROS_PER_DAY % MICROS_PER_SECOND == t % MICROS_PER_SECOND
    ensures t % MICROS_PER_DAY / MICROS_PER_HOUR == t / MICROS_PER_HOUR % 24
    ensures t / MICROS_PER_DAY == t / MICROS_PER_HOUR / 24
  {
    var days, rem := t / MICROS_PER_DAY, t % MICROS_PER_DAY;
    HourDivMod(t, days * 24 + rem / MICROS_PER_HOUR, rem % MICROS_PER_HOUR);
    MinuteDivMod(t, days * 1440 + rem / MICROS_PER_MINUTE, rem % MICROS_PER_MINUTE);
    SecondDivMod(t, days * 86400 + rem / MICROS_PER_SECOND, rem % MICROS_PER_SECOND);
    DayHourDivMod(t / MICROS_PER_HOUR, days, rem / MICROS_PER_HOUR);
  }

  /** Quotient and remainder by one hour are the only such pair. */
  lemma HourDivMod(a: int, q: int, m: int)
    requires 0 <= m < MICROS_PER_HOUR && a == q * MICROS_PER_HOUR + m
    ensures a / MICROS_PER_HOUR == q && a % MICROS_PER_HOUR == m
  {
  }

  /** Quotient and remainder by 24 hours are the only such pair. */
  lemma DayHourDivMod(a: int, q: int, m: int)
    requires 0 <= m < 24 && a == q * 24 + m
    ensures a / 24 == q && a % 24 == m
  {
  }

  // ---------------------------------------------------------------------
  // replace(...) and timedelta arithmetic

  /**
   * `datetime.replace(minute=mi, second=s, microsecond=us)`: keeps the date
   * and the hour of `t`, sets the sub-hour fields.
   */
  function ReplaceSubHour(t: Instant, mi: nat, s: nat, us: nat): (r: Instant)
    requires mi < 60 && s < 60 && us < 1_000_000
    ensures r / MICROS_PER_HOUR == t / MICROS_PER_HOUR
    ensures r % MICROS_PER_HOUR == mi * MICROS_PER_MINUTE + s * MICROS_PER_SECOND + us
  {
    t - t % MICROS_PER_HOUR + mi * MICROS_PER_MINUTE + s * MICROS_PER_SECOND + us
  }

  /** An instant that differs from `t` only below the hour renders with the same date and hour. */
  lemma SameHourFields(t: Instant, r: Instant)
    requires r / MICROS_PER_HOUR == t / MICROS_PER_HOUR
    ensures DateTimeOf(r).year == DateTimeOf(t).year
    ensures DateTimeOf(r).month == DateTimeOf(t).month
    ensures DateTimeOf(r).day == DateTimeOf(t).day
    ensures DateTimeOf(r).hour == DateTimeOf(t).hour
  {
    DayRemainderFields(t);
    DayRemainderFields(r);
  }

  /** The sub-hour fields of an instant are read off its remainder modulo one hour. */
  lemma SubHourFields(t: Instant)
    ensures DateTimeOf(t).minute == t % MICROS_PER_HOUR / MICROS_PER_MINUTE
    ensures DateTimeOf(t).second == t % MICROS_PER_MINUTE / MICROS_PER_SECOND
    ensures DateTimeOf(t).microsecond == t % MICROS_PER_SECOND
  {
    DayRemainderFields(t);
  }

  /** `ReplaceSubHour` behaves as `replace` does on the calendar record. */
  lemma ReplaceSubHourFields(t: Instant, mi: nat, s: nat, us: nat)
    requires mi < 60 && s < 60 && us < 1_000_000
    ensures var d, e := DateTimeOf(t), DateTimeOf(ReplaceSubHour(t, mi, s, us));
      e == d.(minute := mi, second := s, microsecond := us)
  {
    var r := ReplaceSubHour(t, mi, s, us);
    SameHourFields(t, r);
    SubHourFields(r);
    SubHourRemainders(r, mi, s, us);
  }

  /** The minute, second and microsecond digits of a remainder modulo one hour. */
  lemma SubHourRemainders(r: int, mi: nat, s: nat, us: nat)
    requires r >= 0 && mi < 60 && s < 60 && us < 1_000_000
    requires r % MICROS_PER_HOUR == mi * MICROS_PER_MINUTE + s * MICROS_PER_SECOND + us
    ensures r % MICROS_PER_HOUR / MICROS_PER_MINUTE == mi
    ensures r % MICROS_PER_MINUTE / MICROS_PER_SECOND == s
    ensures r % MICROS_PER_SECOND == us
  {
    var q := r / MICROS_PER_HOUR;
    MinuteDivMod(r % MICROS_PER_HOUR, mi, s * MICROS_PER_SECOND + us);
    MinuteDivMod(r, q * 60 + mi, s * MICROS_PER_SECOND + us);
    SecondDivMod(s * MICROS_PER_SECOND + us, s, us);
    SecondDivMod(r, (q * 60 + mi) * 60 + s, us);
  }

  /** Quotient and remainder by one minute are the only such pair. */
  lemma MinuteDivMod(a: int, q: int, m: int)
    requires 0 <= m < MICROS_PER_MINUTE && a == q * MICROS_PER_MINUTE + m
    ensures a / MICROS_PER_MINUTE == q && a % MICROS_PER_MINUTE == m
  {
  }

  /** Quotient and remainder by one second are the only such pair. */
  lemma SecondDivMod(a: int, q: int, m: int)
    requires 0 <= m < MICROS_PER_SECOND && a == q * MICROS_PER_SECOND + m
    ensures a / MICROS_PER_SECOND == q && a % MICROS_PER_SECOND == m
  {
  }

  /** `t - timedelta(hours=n)`; below `datetime.min` Python raises OverflowError. */
  function MinusHours(t: Instant, n: nat): (r: Result<Instant>)
    ensures r.Ok? <==> t >= n * MICROS_PER_HOUR
    ensures r.Ok? ==> r.value + n * MICROS_PER_HOUR == t
  {
    if t - n * MICROS_PER_HOUR < 0 then Err(DateOutOfRange) else Ok(t - n * MICROS_PER_HOUR)
  }
}
