/** Instants in milliseconds, as JavaScript's `Date` and moment.js count them,
    and the calendar days they fall in. A `YYYY-MM-DD` date parsed by the server's
    `Date` (in UTC) or by the browser's moment.js (in local time) denotes the
    midnight that starts the date; each is compared with a clock of its own zone,
    so one epoch-based count serves both. Daylight-saving shifts are not modelled. */
module Calendar {
  import opened Records

  const MsPerHour: int := 3600000
  const MsPerDay: int := 86400000

  /** Days in the March-based years before year `y` (a year here runs from
      March 1st to the end of February, so that a leap day ends its year),
      counted from a fixed origin. Dafny's `/` floors for a positive divisor. */
  function YearCount(y: int): int
  {
    365 * y + y / 4 - y / 100 + y / 400
  }

  /** Days from March 1st to the first of month `m` in a March-based year. */
  function MonthCount(m: int): int
  {
    (153 * (if m > 2 then m - 3 else m + 9) + 2) / 5
  }

  /** Days from 1970-01-01 to `d` in the proleptic Gregorian calendar (the
      civil-to-days conversion). */
  function DayNumber(d: Date): int
  {
    var y := if d.month <= 2 then d.year - 1 else d.year;
    YearCount(y) + MonthCount(d.month) + d.day - 1 - 719468
  }

  /** The instant at which the date starts. */
  function Midnight(d: Date): int
  {
    DayNumber(d) * MsPerDay
  }

  /** The number of the calendar day that contains instant `t`. */
  function DayOf(t: int): int
  {
    t / MsPerDay
  }

  /** Day 0 is the Unix epoch. */
  lemma EpochIsDayZero()
    ensures DayNumber(Date(1970, 1, 1)) == 0
  {
  }

  /** The Gregorian leap-year rule. */
  predicate IsLeapYear(y: int)
  {
    y % 4 == 0 && (y % 100 != 0 || y % 400 == 0)
  }

  function DaysInYear(y: int): int
  {
    if IsLeapYear(y) then 366 else 365
  }

  function DaysInMonth(y: int, m: int): int
    requires 1 <= m <= 12
  {
    if m == 2 then (if IsLeapYear(y) then 29 else 28)
    else if m == 4 || m == 6 || m == 9 || m == 11 then 30
    else 31
  }

  /** A date that exists in the calendar: a month 1..12 and a day of it. */
  predicate ValidDate(d: Date)
  {
    1 <= d.month <= 12 && 1 <= d.day <= DaysInMonth(d.year, d.month)
  }

  /** The days before the first of month `m` in a year of 365 days. */
  function CommonDaysBefore(m: int): int
  {
    if m == 1 then 0 else if m == 2 then 31 else if m == 3 then 59
    else if m == 4 then 90 else if m == 5 then 120 else if m == 6 then 151
    else if m == 7 then 181 else if m == 8 then 212 else if m == 9 then 243
    else if m == 10 then 273 else if m == 11 then 304 else 334
  }

  /** The days of year `y` before the first of month `m`. */
  function DaysBeforeMonth(y: int, m: int): int
    requires 1 <= m <= 12
  {
    CommonDaysBefore(m) + (if m > 2 && IsLeapYear(y) then 1 else 0)
  }

  /** The day after a valid date. */
  function NextDay(d: Date): (r: Date)
    requires ValidDate(d)
    ensures ValidDate(r) && DateLt(d, r)
  {
    if d.day < DaysInMonth(d.year, d.month) then d.(day := d.day + 1)
    else if d.month < 12 then Date(d.year, d.month + 1, 1)
    else Date(d.year + 1, 1, 1)
  }

  /** One more year adds one to `y / k` exactly when `k` divides it. */
  lemma QuotientStep(y: int)
    ensures y / 4 - (y - 1) / 4 == if y % 4 == 0 then 1 else 0
    ensures y / 100 - (y - 1) / 100 == if y % 100 == 0 then 1 else 0
    ensures y / 400 - (y - 1) / 400 == if y % 400 == 0 then 1 else 0
  {
  }

  /** A March-based year is as long as the calendar year its February
      belongs to. */
  lemma YearStep(y: int)
    ensures YearCount(y) == YearCount(y - 1) + DaysInYear(y)
  {
    QuotientStep(y);
  }

  /** The March-based month offsets, against the calendar year's. */
  lemma MonthCountTable(m: int)
    requires 1 <= m <= 12
    ensures MonthCount(m) == if m > 2 then CommonDaysBefore(m) - 59 else CommonDaysBefore(m) + 306
  {
  }

  /** The first of the next month comes a month's length later. */
  lemma MonthStep(y: int, m: int)
    requires 1 <= m < 12
    ensures DaysBeforeMonth(y, m + 1) == DaysBeforeMonth(y, m) + DaysInMonth(y, m)
  {
  }

  /** Every month ends within its year. */
  lemma MonthFits(y: int, m: int)
    requires 1 <= m <= 12
    ensures 0 <= DaysBeforeMonth(y, m)
    ensures DaysBeforeMonth(y, m) + DaysInMonth(y, m) <= DaysInYear(y)
  {
  }

  /** A month ends no later than any later month of the year starts. */
  lemma {:induction false} MonthsIncrease(y: int, m: int, m': int)
    requires 1 <= m < m' <= 12
    ensures DaysBeforeMonth(y, m) + DaysInMonth(y, m) <= DaysBeforeMonth(y, m')
    decreases m' - m
  {
    MonthStep(y, m);
    if m + 1 < m' {
      MonthsIncrease(y, m + 1, m');
      MonthFits(y, m + 1);
    }
  }

  /** The count of a valid date: its year's first day, the days of the months
      before its month, and its day of the month. */
  lemma DayNumberSplit(d: Date)
    requires ValidDate(d)
    ensures DayNumber(d) == DayNumber(Date(d.year, 1, 1)) + DaysBeforeMonth(d.year, d.month) + d.day - 1
  {
    MonthCountTable(1);
    MonthCountTable(d.month);
    if d.month > 2 {
      YearStep(d.year);
    }
  }

  /** From one New Year's Day to the next the count grows by the length of
      the year. */
  lemma NewYearToNewYear(y: int)
    ensures DayNumber(Date(y + 1, 1, 1)) == DayNumber(Date(y, 1, 1)) + DaysInYear(y)
  {
    YearStep(y);
  }

  /** Every day of a valid date's year comes before the next New Year's Day. */
  lemma WithinYear(d: Date)
    requires ValidDate(d)
    ensures DayNumber(Date(d.year, 1, 1)) <= DayNumber(d) < DayNumber(Date(d.year + 1, 1, 1))
  {
    DayNumberSplit(d);
    NewYearToNewYear(d.year);
    MonthFits(d.year, d.month);
  }

  lemma {:induction false} NewYearsIncrease(y: int, y': int)
    requires y < y'
    ensures DayNumber(Date(y + 1, 1, 1)) <= DayNumber(Date(y', 1, 1))
    decreases y' - y
  {
    if y + 1 < y' {
      NewYearsIncrease(y + 1, y');
      NewYearToNewYear(y + 1);
    }
  }

  /** The count steps by one from each valid date to the next, over month
      ends, leap days and year ends alike. */
  lemma NextDayIsCounted(d: Date)
    requires ValidDate(d)
    ensures DayNumber(NextDay(d)) == DayNumber(d) + 1
  {
    DayNumberSplit(d);
    var n := NextDay(d);
    if n.year == d.year {
      DayNumberSplit(n);
      if n.month != d.month {
        MonthStep(d.year, d.month);
      }
    } else {
      NewYearToNewYear(d.year);
    }
  }

  /** Within one year, a later month or day has a larger count. */
  lemma EarlierInYear(a: Date, b: Date)
    requires ValidDate(a) && ValidDate(b) && a.year == b.year && DateLt(a, b)
    ensures DayNumber(a) < DayNumber(b)
  {
    DayNumberSplit(a);
    DayNumberSplit(b);
    if a.month < b.month {
      MonthsIncrease(a.year, a.month, b.month);
    }
  }

  /** Every day of an earlier year has a smaller count. */
  lemma EarlierYear(a: Date, b: Date)
    requires ValidDate(a) && ValidDate(b) && a.year < b.year
    ensures DayNumber(a) < DayNumber(b)
  {
    var nextNewYear, lastNewYear := DayNumber(Date(a.year + 1, 1, 1)), DayNumber(Date(b.year, 1, 1));
    assert DayNumber(a) < nextNewYear by {
      WithinYear(a);
    }
    assert nextNewYear <= lastNewYear by {
      NewYearsIncrease(a.year, b.year);
    }
    assert lastNewYear <= DayNumber(b) by {
      WithinYear(b);
    }
  }

  /** A valid date earlier in the calendar has a smaller count. */
  lemma EarlierDateEarlierDay(a: Date, b: Date)
    requires ValidDate(a) && ValidDate(b) && DateLt(a, b)
    ensures DayNumber(a) < DayNumber(b)
  {
    if a.year == b.year {
      EarlierInYear(a, b);
    } else {
      EarlierYear(a, b);
    }
  }

  /** On valid dates the count orders days as the calendar (and the
      `YYYY-MM-DD` strings) do, and tells different days apart. */
  lemma DayOrderIsDateOrder(a: Date, b: Date)
    requires ValidDate(a) && ValidDate(b)
    ensures DateLt(a, b) <==> DayNumber(a) < DayNumber(b)
    ensures a == b <==> DayNumber(a) == DayNumber(b)
  {
    if DateLt(a, b) {
      EarlierDateEarlierDay(a, b);
    } else if DateLt(b, a) {
      EarlierDateEarlierDay(b, a);
    }
  }

  /** An instant lies in the day `DayOf` names: from its midnight, for one day. */
  lemma DayOfBounds(t: int)
    ensures DayOf(t) * MsPerDay <= t < DayOf(t) * MsPerDay + MsPerDay
  {
  }
}
