/**
 * localtime_r of win32/bobins.c: from seconds since 1970 to a civil date and time of day, by
 * walking years and months.  The reference is the closed-form Gregorian day count.
 */
module Calendar {

  const SECSPERMIN := 60
  const SECSPERHOUR := 3600
  const SECSPERDAY := 86400
  const YEAR_BASE := 1900
  const EPOCH_YEAR := 1970
  const EPOCH_WDAY := 4

  /** Division that truncates toward zero, and its remainder, as in C. */
  function CDiv(a: int, b: int): int
    requires b > 0
  {
    if a >= 0 then a / b else -((-a) / b)
  }

  function CMod(a: int, b: int): int
    requires b > 0
  {
    a - CDiv(a, b) * b
  }

  predicate IsLeap(y: int) { (y % 4 == 0 && y % 100 != 0) || y % 400 == 0 }

  function YearLength(leap: bool): int { if leap then 366 else 365 }

  function MonthLength(leap: bool, m: int): int
    requires 0 <= m < 12
  {
    if m == 1 then (if leap then 29 else 28) else if m == 3 || m == 5 || m == 8 || m == 10 then 30 else 31
  }

  datatype Tm = Tm(sec: int, min: int, hour: int, mday: int, mon: int, year: int, wday: int, yday: int)

  // ---- the Gregorian calendar, in closed form ----

  /** Leap days in the years before y, counted from year 1. */
  function LeapsBefore(y: int): int { (y - 1) / 4 - (y - 1) / 100 + (y - 1) / 400 }

  /** Days from 1 January 1970 to 1 January of year y. */
  function YearStart(y: int): int {
    365 * (y - EPOCH_YEAR) + LeapsBefore(y) - LeapsBefore(EPOCH_YEAR)
  }

  /** Days from 1 January to the first of month m. */
  function MonthStart(leap: bool, m: int): int
    requires 0 <= m <= 12
  {
    if m == 0 then 0 else MonthStart(leap, m - 1) + MonthLength(leap, m - 1)
  }

  /** Days from 1 January 1970 to a date. */
  function DayNumber(year: int, mon: int, mday: int): int
    requires 0 <= mon < 12
  {
    YearStart(year) + MonthStart(IsLeap(year), mon) + mday - 1
  }

  predicate ValidDate(year: int, mon: int, mday: int) {
    0 <= mon < 12 && 1 <= mday <= MonthLength(IsLeap(year), mon)
  }

  lemma CarriesAt4(y: int)
    ensures y / 4 - (y - 1) / 4 == if y % 4 == 0 then 1 else 0
  {}

  lemma CarriesAt100(y: int)
    ensures y / 100 - (y - 1) / 100 == if y % 100 == 0 then 1 else 0
  {}

  lemma CarriesAt400(y: int)
    ensures y / 400 - (y - 1) / 400 == if y % 400 == 0 then 1 else 0
  {}

  lemma Centuries(y: int)
    ensures y % 100 == 0 ==> y % 4 == 0
  {
    if y % 100 == 0 {
      var c := y / 100;
      assert y == 100 * c;
    }
  }

  lemma FourCenturies(y: int)
    ensures y % 400 == 0 ==> y % 100 == 0
  {
    if y % 400 == 0 {
      var c := y / 400;
      assert y == 400 * c;
    }
  }

  /** A year is as long as its leap rule says. */
  lemma YearStartNext(y: int)
    ensures YearStart(y + 1) == YearStart(y) + YearLength(IsLeap(y))
  {
    CarriesAt4(y);
    CarriesAt100(y);
    CarriesAt400(y);
    Centuries(y);
    FourCenturies(y);
  }

  lemma {:induction false} YearStartGrows(a: int, b: int)
    requires a <= b
    decreases b - a
    ensures YearStart(b) >= YearStart(a) + 365 * (b - a)
  {
    if a < b {
      YearStartGrows(a, b - 1);
      YearStartNext(b - 1);
    }
  }

  /** Months begin where the closed form, with February corrected, says. */
  lemma {:induction false} MonthStartClosed(leap: bool, m: int)
    requires 0 <= m <= 12
    ensures MonthStart(leap, m) == (367 * m + 5) / 12 - if m < 2 then 0 else if leap then 1 else 2
  {
    if m > 0 { MonthStartClosed(leap, m - 1); }
  }

  lemma MonthStartYear(leap: bool)
    ensures MonthStart(leap, 12) == YearLength(leap)
  {
    MonthStartClosed(leap, 12);
  }

  lemma {:induction false} MonthStartGrows(leap: bool, a: int, b: int)
    requires 0 <= a <= b <= 12
    decreases b - a
    ensures MonthStart(leap, b) >= MonthStart(leap, a) + 28 * (b - a)
    ensures a < b ==> MonthStart(leap, b) >= MonthStart(leap, a) + MonthLength(leap, a)
  {
    if a < b { MonthStartGrows(leap, a, b - 1); }
  }

  /** A date is determined by its day number. */
  lemma DateUnique(y: int, m: int, d: int, y': int, m': int, d': int)
    requires ValidDate(y, m, d) && ValidDate(y', m', d')
    requires DayNumber(y, m, d) == DayNumber(y', m', d')
    ensures y == y' && m == m' && d == d'
  {
    InYear(y, m, d);
    InYear(y', m', d');
    if y < y' {
      YearStartGrows(y + 1, y');
    } else if y' < y {
      YearStartGrows(y' + 1, y);
    } else if m < m' {
      MonthStartGrows(IsLeap(y), m, m');
    } else if m' < m {
      MonthStartGrows(IsLeap(y), m', m);
    }
  }

  /** A valid date falls within its year. */
  lemma InYear(y: int, m: int, d: int)
    requires ValidDate(y, m, d)
    ensures YearStart(y) <= DayNumber(y, m, d) < YearStart(y + 1)
  {
    YearStartNext(y);
    MonthStartYear(IsLeap(y));
    MonthStartGrows(IsLeap(y), 0, m);
    MonthStartGrows(IsLeap(y), m, 12);
  }

  // ---- localtime_r ----

  /** The date and time of day that a second count stands for. */
  ghost predicate Denotes(tm: Tm, t: int) {
    && ValidDate(tm.year + YEAR_BASE, tm.mon, tm.mday)
    && 0 <= tm.hour < 24 && 0 <= tm.min < 60 && 0 <= tm.sec < 60
    && var days := DayNumber(tm.year + YEAR_BASE, tm.mon, tm.mday);
    && t == days * SECSPERDAY + tm.hour * SECSPERHOUR + tm.min * SECSPERMIN + tm.sec
    && tm.yday == days - YearStart(tm.year + YEAR_BASE)
    && tm.wday == (EPOCH_WDAY + days) % 7
  }

  /** Finds the year of a day number by stepping from 1970 in either direction. */
  method FindYear(dayNumber: int) returns (y: int, days: int)
    ensures dayNumber == YearStart(y) + days && 0 <= days < YearLength(IsLeap(y))
  {
    y, days := EPOCH_YEAR, dayNumber;
    if days >= 0 {
      while days >= YearLength(IsLeap(y))
        invariant dayNumber == YearStart(y) + days && days >= 0
      {
        YearStartNext(y);
        days := days - YearLength(IsLeap(y));
        y := y + 1;
      }
    } else {
      y := y - 1;
      YearStartNext(y);
      days := days + YearLength(IsLeap(y));
      while days < 0
        invariant dayNumber == YearStart(y) + days && days < YearLength(IsLeap(y))
        decreases -days
      {
        y := y - 1;
        YearStartNext(y);
        days := days + YearLength(IsLeap(y));
      }
    }
  }

  /** Finds the month of a day of the year. */
  method FindMonth(leap: bool, yday: int) returns (mon: int, days: int)
    requires 0 <= yday < YearLength(leap)
    ensures 0 <= mon < 12 && yday == MonthStart(leap, mon) + days && 0 <= days < MonthLength(leap, mon)
  {
    MonthStartYear(leap);
    mon, days := 0, yday;
    while days >= MonthLength(leap, mon)
      invariant 0 <= mon < 12 && yday == MonthStart(leap, mon) + days && days >= 0
      decreases days
    {
      days := days - MonthLength(leap, mon);
      mon := mon + 1;
    }
  }

  /** Whole days and the seconds left over, for negative times too. */
  method SplitDays(t: int) returns (days: int, rem: int)
    ensures t == days * SECSPERDAY + rem && 0 <= rem < SECSPERDAY
  {
    days, rem := CDiv(t, SECSPERDAY), CMod(t, SECSPERDAY);
    while rem < 0
      invariant t == days * SECSPERDAY + rem
      decreases -rem
    {
      rem := rem + SECSPERDAY;
      days := days - 1;
    }
    while rem >= SECSPERDAY
      invariant t == days * SECSPERDAY + rem && rem >= 0
    {
      rem := rem - SECSPERDAY;
      days := days + 1;
    }
  }

  method FindWeekday(days: int) returns (wday: int)
    ensures wday == (EPOCH_WDAY + days) % 7
  {
    wday := CMod(EPOCH_WDAY + days, 7);
    if wday < 0 {
      wday := wday + 7;
    }
  }

  /** Terminates for every time value and gives the one date and time it stands for. */
  method LocalTime(t: int) returns (tm: Tm)
    ensures Denotes(tm, t)
  {
    var days, rem := SplitDays(t);
    var hour, left := rem / SECSPERHOUR, rem % SECSPERHOUR;
    var min, sec := left / SECSPERMIN, left % SECSPERMIN;
    assert rem == hour * SECSPERHOUR + min * SECSPERMIN + sec;
    var wday := FindWeekday(days);
    var y, yday := FindYear(days);
    var mon, d := FindMonth(IsLeap(y), yday);
    tm := Tm(sec, min, hour, d + 1, mon, y - YEAR_BASE, wday, yday);
    assert DayNumber(tm.year + YEAR_BASE, tm.mon, tm.mday) == days;
  }

  /** No other result would do: date, time of day, weekday and day of the year are all determined. */
  lemma DenotesUnique(a: Tm, b: Tm, t: int)
    ensures Denotes(a, t) && Denotes(b, t) ==> a == b
  {
    if Denotes(a, t) && Denotes(b, t) {
      var da := DayNumber(a.year + YEAR_BASE, a.mon, a.mday);
      var db := DayNumber(b.year + YEAR_BASE, b.mon, b.mday);
      var sa := a.hour * SECSPERHOUR + a.min * SECSPERMIN + a.sec;
      var sb := b.hour * SECSPERHOUR + b.min * SECSPERMIN + b.sec;
      assert 0 <= sa < SECSPERDAY && 0 <= sb < SECSPERDAY;
      assert (da - db) * SECSPERDAY == sb - sa;
      DateUnique(a.year + YEAR_BASE, a.mon, a.mday, b.year + YEAR_BASE, b.mon, b.mday);
    }
  }
}
