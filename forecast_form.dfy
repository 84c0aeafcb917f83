/** The forecast form: the browser's past-date guard before a forecast is
    posted, and the reminders of forecasts due within the next day. `now` is
    the browser clock in milliseconds, counted in its own time zone. */
module ForecastForm {
  import opened Records
  import opened Seqs
  import opened Calendar
  import Backend

  /** The form's guard, moment's isBefore at day granularity: the last
      millisecond of the date's day is before now. The form then refuses to post. */
  predicate SubmitBlocked(date: Date, now: int)
  {
    Midnight(date) + MsPerDay - 1 < now
  }

  /** The guard compares days: it blocks exactly the days before today. */
  lemma SubmitBlockedIffEarlierDay(date: Date, now: int)
    ensures SubmitBlocked(date, now) <==> DayNumber(date) < DayOf(now)
  {
    var d, t := DayNumber(date), DayOf(now);
    DayOfBounds(now);
    if d < t {
      assert (d + 1) * MsPerDay <= t * MsPerDay;
    } else {
      assert t * MsPerDay <= d * MsPerDay;
    }
  }

  /** Today's date passes the guard at every moment of the day. */
  lemma TodayIsAccepted(date: Date, now: int)
    requires DayNumber(date) == DayOf(now)
    ensures !SubmitBlocked(date, now)
  {
    SubmitBlockedIffEarlierDay(date, now);
  }

  /** When the browser's clock reads the same as the server's UTC clock, the
      form and the server refuse the same dates. */
  lemma FormAgreesWithServer(date: Date, now: int)
    ensures SubmitBlocked(date, now) <==> Backend.IsPastDate(date, now)
  {
    SubmitBlockedIffEarlierDay(date, now);
    Backend.PastDateIsEarlierDay(date, now);
  }

  /** Division truncated toward zero, as moment's `diff` rounds. */
  function TruncDiv(a: int, b: int): (q: int)
    requires b > 0
    ensures a >= 0 ==> q * b <= a < q * b + b
    ensures a < 0 ==> q * b - b < a <= q * b
  {
    if a >= 0 then a / b else -((-a) / b)
  }

  /** moment's difference in hours: the whole hours from now to the start
      of the date. */
  function HoursUntil(date: Date, now: int): int
  {
    TruncDiv(Midnight(date) - now, MsPerHour)
  }

  /** A forecast is due soon when it is more than 0 and at most 24 whole hours away. */
  predicate IsDueSoon(f: Forecast, now: int)
  {
    HoursUntil(f.date, now) <= 24 && HoursUntil(f.date, now) > 0
  }

  /** Due soon means: the date starts at least one hour and less than 25
      hours from now. */
  lemma DueSoonWindow(f: Forecast, now: int)
    ensures IsDueSoon(f, now) <==> MsPerHour <= Midnight(f.date) - now < 25 * MsPerHour
  {
    var h := HoursUntil(f.date, now);
    var gap := Midnight(f.date) - now;
    if gap >= 0 {
      assert h * MsPerHour <= gap < h * MsPerHour + MsPerHour;
      if 1 <= h <= 24 {
        assert MsPerHour <= gap < 25 * MsPerHour;
      }
      if MsPerHour <= gap < 25 * MsPerHour {
        assert 0 < h;
        assert h < 25;
      }
    } else {
      assert h * MsPerHour - MsPerHour < gap;
    }
  }

  /** A forecast whose date has begun, or begins within the hour, raises no reminder. */
  lemma NoReminderWithinTheHour(f: Forecast, now: int)
    requires Midnight(f.date) - now < MsPerHour
    ensures !IsDueSoon(f, now)
  {
    DueSoonWindow(f, now);
  }

  /** Only tomorrow's forecasts can be due, and in the last hour of the day
      those of the day after tomorrow instead. */
  lemma DueSoonDays(f: Forecast, now: int)
    requires IsDueSoon(f, now)
    ensures DayOf(now) + 1 <= DayNumber(f.date) <= DayOf(now) + 2
    ensures DayNumber(f.date) == DayOf(now) + 2 ==> DayOf(now + MsPerHour) == DayOf(now) + 1
  {
    DueSoonWindow(f, now);
    DayOfBounds(now);
    DayOfBounds(now + MsPerHour);
    var d, t := DayNumber(f.date), DayOf(now);
    assert (t + 1) * MsPerDay <= d * MsPerDay by {
      assert t * MsPerDay <= now && now + MsPerHour <= d * MsPerDay;
    }
    assert d * MsPerDay <= (t + 2) * MsPerDay by {
      assert now < t * MsPerDay + MsPerDay && d * MsPerDay < now + 25 * MsPerHour;
    }
  }

  /** At half past eleven at night, tomorrow's forecast is 0 whole hours away
      and is not reminded, while the next day's is 24 hours away and is. */
  lemma LastHourSkipsTomorrow(today: Date, tomorrow: Date, later: Date, f: Forecast, g: Forecast)
    requires DayNumber(tomorrow) == DayNumber(today) + 1 && DayNumber(later) == DayNumber(today) + 2
    requires f.date == tomorrow && g.date == later
    ensures var now := Midnight(tomorrow) - MsPerHour / 2;
      DayOf(now) == DayNumber(today) && !IsDueSoon(f, now) && IsDueSoon(g, now)
  {
    var now := Midnight(tomorrow) - MsPerHour / 2;
    DueSoonWindow(f, now);
    DueSoonWindow(g, now);
    assert now == DayNumber(today) * MsPerDay + (MsPerDay - MsPerHour / 2);
  }

  function DueSoon(now: int): Forecast -> bool
  {
    (f: Forecast) => IsDueSoon(f, now)
  }

  /** `reminders`: the forecasts due soon. */
  function Reminders(forecasts: seq<Forecast>, now: int): (r: seq<Forecast>)
    ensures forall f :: f in r <==> f in forecasts && IsDueSoon(f, now)
  {
    Filter(forecasts, DueSoon(now))
  }

  /** The reminders keep the order of the forecasts. */
  lemma RemindersIsSubsequence(forecasts: seq<Forecast>, now: int)
    ensures IsSubsequence(Reminders(forecasts, now), forecasts)
  {
    FilterIsSubsequence(forecasts, DueSoon(now));
  }

  /** The warning is raised when there is at least one reminder. */
  predicate WarningRaised(forecasts: seq<Forecast>, now: int)
  {
    |Reminders(forecasts, now)| > 0
  }

  /** The warning is raised exactly when some forecast is due soon. */
  lemma WarningIffSomeDue(forecasts: seq<Forecast>, now: int)
    ensures WarningRaised(forecasts, now) <==> exists i :: 0 <= i < |forecasts| && IsDueSoon(forecasts[i], now)
  {
    var r := Reminders(forecasts, now);
    if r != [] {
      assert r[0] in r;
      var i :| 0 <= i < |forecasts| && forecasts[i] == r[0];
    }
    if exists i :: 0 <= i < |forecasts| && IsDueSoon(forecasts[i], now) {
      var i :| 0 <= i < |forecasts| && IsDueSoon(forecasts[i], now);
      assert forecasts[i] in r;
    }
  }
}
