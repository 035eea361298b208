/** The calendar conversion that replaces gmtime: days are subtracted year by year and month by
    month. It is measured against "Seconds Since the Epoch", section 4.16 of the Base Definitions
    of IEEE Std 1003.1-2017. */
module Gmtime {
  import opened Options

  function DaysInYear(year: int): (n: nat)
    ensures n == 365 || n == 366
  {
    if year % 4 == 0 then
      if year % 400 == 0 then 366
      else if year % 100 == 0 then 365
      else 366
    else 365
  }

  const DAYS_IN_MONTH: seq<nat> := [31, 28, 31, 30, 31, 30, 31, 31, 30, 31, 30, 31]

  function DaysInMonth(month: nat, year: int): (n: nat)
    requires month < 12
    ensures 28 <= n <= 31
  {
    DAYS_IN_MONTH[month] + if month == 1 && DaysInYear(year) == 366 then 1 else 0
  }

  /** The members of struct tm that are set; year counts from 1900. */
  datatype Tm = Tm(year: int, mon: nat, mday: nat, hour: nat, min: nat, sec: nat)

  /** The year loop: which year the day falls in, counted from the start of `year`, and where. */
  function SplitYear(year: int, days: nat): (r: (int, nat))
    ensures r.1 < DaysInYear(r.0)
    decreases days
  {
    if days < DaysInYear(year) then (year, days) else SplitYear(year + 1, days - DaysInYear(year))
  }

  /** The month loop, which runs out at twelve. */
  function SplitMonth(month: nat, days: nat, year: int): (r: (nat, nat))
    requires month <= 12
    ensures month <= r.0 <= 12
    ensures r.0 < 12 ==> r.1 < DaysInMonth(r.0, year)
    decreases 12 - month
  {
    if month == 12 || days < DaysInMonth(month, year) then (month, days)
    else SplitMonth(month + 1, days - DaysInMonth(month, year), year)
  }

  /** What the conversion computes. The months are those of the year counted from 1900. */
  function Converted(t: nat): Tm {
    var y := SplitYear(1970, t / 86400);
    var m := SplitMonth(0, y.1, y.0 - 1900);
    Tm(y.0 - 1900, m.0, m.1 + 1, t / 3600 % 24, t / 60 % 60, t % 60)
  }

  /** The static buffer the result is returned in. */
  class TimeBuffer {
    var tm: Tm
    var wday: nat
    var yday: nat
    var isdst: int

    constructor ()
    {
      tm, wday, yday, isdst := Tm(0, 0, 0, 0, 0, 0), 0, 0, 0;
    }

    /** gmtime; false is a null pointer. The weekday and the day of the year stay zero. */
    method Fill(timer: Option<int>) returns (ok: bool)
      modifies this
      ensures ok <==> timer.Some? && timer.value >= 0
      ensures ok ==> tm == Converted(timer.value) && wday == 0 && yday == 0 && isdst == 0
      ensures !ok ==> tm == old(tm) && wday == old(wday) && yday == old(yday) && isdst == old(isdst)
    {
      if timer.None? || timer.value < 0 {
        return false;
      }
      var deltat: nat := timer.value;
      tm, wday, yday, isdst := Tm(0, 0, 0, 0, 0, 0), 0, 0, 0;
      deltat := FillClock(deltat);
      var year;
      year, deltat := RemoveYears(deltat);
      tm := tm.(year := year - 1900);
      FillMonth(deltat);
      ok := true;
    }

    method FillClock(t: nat) returns (deltat: nat)
      modifies this`tm
      ensures deltat == t / 86400
      ensures tm == old(tm).(hour := t / 3600 % 24, min := t / 60 % 60, sec := t % 60)
    {
      ClockParts(t);
      deltat := t;
      tm := tm.(sec := deltat % 60);
      deltat := deltat / 60;
      tm := tm.(min := deltat % 60);
      deltat := deltat / 60;
      tm := tm.(hour := deltat % 24);
      deltat := deltat / 24;
    }

    method RemoveYears(days: nat) returns (year: int, deltat: nat)
      ensures (year, deltat) == SplitYear(1970, days)
    {
      year, deltat := 1970, days;
      while deltat >= DaysInYear(year)
        invariant SplitYear(year, deltat) == SplitYear(1970, days)
        decreases deltat
      {
        deltat := deltat - DaysInYear(year);
        year := year + 1;
      }
    }

    method FillMonth(days: nat)
      modifies this`tm
      ensures var m := SplitMonth(0, days, old(tm).year);
              tm == old(tm).(mon := m.0, mday := m.1 + 1)
    {
      var month, deltat := 0, days;
      while month < 12
        invariant month <= 12 && SplitMonth(month, deltat, tm.year) == SplitMonth(0, days, tm.year)
      {
        var daysInThisMonth := DaysInMonth(month, tm.year);
        if deltat < daysInThisMonth {
          break;
        }
        deltat := deltat - daysInThisMonth;
        month := month + 1;
      }
      tm := tm.(mon := month, mday := deltat + 1);
    }
  }

  lemma {:induction false} ClockParts(t: nat)
    ensures t / 60 / 60 == t / 3600 && t / 60 / 60 / 24 == t / 86400
  {
  }

  // ----- the standard's formula -----

  /** The days of the years 1970 to year - 1, as section 4.16 counts them. */
  function DaysBefore(year: int): int {
    (year - 1970) * 365 + (year - 1969) / 4 - (year - 1901) / 100 + (year - 1601) / 400
  }

  /** The seconds since the Epoch of a broken-down time whose day of the year is yday. */
  function PosixSeconds(tm: Tm, yday: int): int {
    tm.sec + tm.min * 60 + tm.hour * 3600 + yday * 86400 + (tm.year - 70) * 31536000
    + ((tm.year - 69) / 4) * 86400 - ((tm.year - 1) / 100) * 86400 + ((tm.year + 299) / 400) * 86400
  }

  const MONTH_STARTS: seq<nat> := [0, 31, 59, 90, 120, 151, 181, 212, 243, 273, 304, 334, 365]

  /** The days of a year before a month, or the whole year for month twelve. */
  function MonthStart(month: nat, year: int): (n: nat)
    requires month <= 12
    ensures n <= 366
  {
    MONTH_STARTS[month] + if month > 1 && DaysInYear(year) == 366 then 1 else 0
  }

  /** A time of day on a day that the calendar has. */
  predicate IsDate(tm: Tm) {
    && tm.mon < 12 && 1 <= tm.mday <= DaysInMonth(tm.mon, tm.year + 1900)
    && tm.hour < 24 && tm.min < 60 && tm.sec < 60
  }

  function DayOfYear(tm: Tm): int
    requires tm.mon < 12
  {
    MonthStart(tm.mon, tm.year + 1900) + tm.mday - 1
  }

  /** tm is the date and time of t. */
  predicate Tells(tm: Tm, t: nat) {
    IsDate(tm) && PosixSeconds(tm, DayOfYear(tm)) == t
  }

  /** The year of a time, and its zero-based day in that year. */
  function YearOf(t: nat): int {
    SplitYear(1970, t / 86400).0
  }

  function YearDay(t: nat): nat {
    SplitYear(1970, t / 86400).1
  }

  // ----- years -----

  lemma {:induction false} DaysBeforeNext(year: int)
    ensures DaysBefore(year + 1) == DaysBefore(year) + DaysInYear(year)
  {
    CountMultiples(year, 1969, 4);
    CountMultiples(year, 1901, 100);
    CountMultiples(year, 1601, 400);
    DaysAreMultiples(year);
  }

  lemma {:induction false} DaysAreMultiples(year: int)
    ensures DaysInYear(year) == 365 + (if year % 4 == 0 then 1 else 0) - (if year % 100 == 0 then 1 else 0)
                                + if year % 400 == 0 then 1 else 0
  {
    MultiplesNest(year);
  }

  lemma {:induction false} MultiplesNest(year: int)
    ensures year % 400 == 0 ==> year % 100 == 0
    ensures year % 100 == 0 ==> year % 4 == 0
  {
  }

  /** One more multiple of n is counted exactly when the year is one. */
  lemma {:induction false} CountMultiples(year: int, from: int, n: int)
    requires (n == 4 && from == 1969) || (n == 100 && from == 1901) || (n == 400 && from == 1601)
    ensures (year + 1 - from) / n == (year - from) / n + if year % n == 0 then 1 else 0
  {
  }

  /** The year loop finds the year whose days, counted by the standard, contain the day. */
  lemma {:induction false} SplitYearExact(year: int, days: nat)
    ensures var r := SplitYear(year, days);
            r.0 >= year && DaysBefore(year) + days == DaysBefore(r.0) + r.1
    decreases days
  {
    if days >= DaysInYear(year) {
      DaysBeforeNext(year);
      SplitYearExact(year + 1, days - DaysInYear(year));
    }
  }

  lemma {:induction false} DaysBeforeGrows(y: int, z: int)
    requires y < z
    ensures DaysBefore(y) + DaysInYear(y) <= DaysBefore(z)
    decreases z - y
  {
    DaysBeforeNext(y);
    if y + 1 < z {
      DaysBeforeGrows(y + 1, z);
    }
  }

  /** A day is in one year only. */
  lemma {:induction false} YearIsUnique(y: int, d: nat, z: int, e: nat)
    requires DaysBefore(y) + d == DaysBefore(z) + e && d < DaysInYear(y) && e < DaysInYear(z)
    ensures y == z && d == e
  {
    if y < z {
      DaysBeforeGrows(y, z);
    } else if z < y {
      DaysBeforeGrows(z, y);
    }
  }

  // ----- months -----

  lemma {:induction false} MonthStartNext(month: nat, year: int)
    requires month < 12
    ensures MonthStart(month + 1, year) == MonthStart(month, year) + DaysInMonth(month, year)
  {
  }

  lemma {:induction false} SplitMonthExact(month: nat, days: nat, year: int)
    requires month <= 12
    ensures var r := SplitMonth(month, days, year);
            MonthStart(month, year) + days == MonthStart(r.0, year) + r.1
    decreases 12 - month
  {
    if month < 12 && days >= DaysInMonth(month, year) {
      MonthStartNext(month, year);
      SplitMonthExact(month + 1, days - DaysInMonth(month, year), year);
    }
  }

  lemma {:induction false} MonthStartGrows(m: nat, n: nat, year: int)
    requires m < n <= 12
    ensures MonthStart(m, year) + DaysInMonth(m, year) <= MonthStart(n, year)
    decreases n - m
  {
    MonthStartNext(m, year);
    if m + 1 < n {
      MonthStartGrows(m + 1, n, year);
    }
  }

  /** A day of the year is in one month only. */
  lemma {:induction false} MonthIsUnique(m: nat, d: nat, n: nat, e: nat, year: int)
    requires m < 12 && n < 12 && d < DaysInMonth(m, year) && e < DaysInMonth(n, year)
    requires MonthStart(m, year) + d == MonthStart(n, year) + e
    ensures m == n && d == e
  {
    if m < n {
      MonthStartGrows(m, n, year);
    } else if n < m {
      MonthStartGrows(n, m, year);
    }
  }

  /** The month loop takes its leap years from a year counted from 1900. That is right except in
      two years out of four hundred, such as 2000 and 2300. */
  lemma {:induction false} SameFebruary(year: int)
    ensures DaysInYear(year) == DaysInYear(year - 1900) <==> year % 400 != 0 && year % 400 != 300
    ensures year % 400 == 0 ==> DaysInYear(year) == 366 && DaysInYear(year - 1900) == 365
    ensures year % 400 == 300 ==> DaysInYear(year) == 365 && DaysInYear(year - 1900) == 366
  {
    From1900(year);
    MultiplesNest(year);
    MultiplesNest(year - 1900);
  }

  lemma {:induction false} From1900(year: int)
    ensures (year - 1900) % 4 == year % 4 && (year - 1900) % 100 == year % 100
    ensures (year - 1900) % 400 == if year % 400 >= 300 then year % 400 - 300 else year % 400 + 100
  {
    RemainderIs(year - 1900, 4, year / 4 - 475, year % 4);
    RemainderIs(year - 1900, 100, year / 100 - 19, year % 100);
    if year % 400 >= 300 {
      RemainderIs(year - 1900, 400, year / 400 - 4, year % 400 - 300);
    } else {
      RemainderIs(year - 1900, 400, year / 400 - 5, year % 400 + 100);
    }
  }

  lemma {:induction false} RemainderIs(x: int, n: int, q: int, r: int)
    requires (n == 4 || n == 100 || n == 400) && 0 <= r < n && x == q * n + r
    ensures x % n == r
  {
  }

  /** The calendar both sides use: thirty days have April, June, September and November; February has
      twenty-eight, and one more in the leap years of the Gregorian calendar. */
  lemma {:induction false} MonthLengths(month: nat, year: int)
    requires month < 12
    ensures month in {0, 2, 4, 6, 7, 9, 11} ==> DaysInMonth(month, year) == 31
    ensures month in {3, 5, 8, 10} ==> DaysInMonth(month, year) == 30
    ensures month == 1 ==>
              DaysInMonth(month, year) == if year % 4 == 0 && (year % 100 != 0 || year % 400 == 0) then 29 else 28
  {
    MultiplesNest(year);
  }

  // ----- where the conversion is right -----

  /** The formula is the clock time plus whole days. */
  lemma {:induction false} PosixIsDays(tm: Tm, yday: int)
    ensures PosixSeconds(tm, yday) ==
            tm.sec + tm.min * 60 + tm.hour * 3600 + (DaysBefore(tm.year + 1900) + yday) * 86400
  {
  }

  lemma {:induction false} ClockIsRest(t: nat)
    ensures t % 60 + t / 60 % 60 * 60 + t / 3600 % 24 * 3600 + t / 86400 * 86400 == t
  {
    ClockParts(t);
    var m, h := t / 60, t / 3600;
    assert t == m * 60 + t % 60 && m == h * 60 + m % 60 && h == h / 24 * 24 + h % 24;
  }

  /** The formula gives t back exactly when it is told the right day of the year. */
  lemma {:induction false} ConvertedDay(t: nat, yday: int)
    ensures PosixSeconds(Converted(t), yday) == t <==> yday == YearDay(t)
  {
    var tm := Converted(t);
    PosixIsDays(tm, yday);
    ClockIsRest(t);
    SplitYearExact(1970, t / 86400);
  }

  lemma {:induction false} MonthsAgree(year: int, d: nat)
    requires year % 400 != 0 && year % 400 != 300 && d < DaysInYear(year)
    ensures var m := SplitMonth(0, d, year - 1900);
            m.0 < 12 && m.1 < DaysInMonth(m.0, year) && MonthStart(m.0, year) + m.1 == d
  {
    SameFebruary(year);
    SplitMonthExact(0, d, year - 1900);
  }

  /** In the other years January and the first 28 days of February are right, and nothing else. */
  lemma {:induction false} MonthsDisagree(year: int, d: nat)
    requires (year % 400 == 0 || year % 400 == 300) && d < DaysInYear(year)
    ensures var m := SplitMonth(0, d, year - 1900);
            m.0 < 12 && m.1 < DaysInMonth(m.0, year) && MonthStart(m.0, year) + m.1 == d <==> d < 59
  {
    SameFebruary(year);
    SplitMonthExact(0, d, year - 1900);
    var m := SplitMonth(0, d, year - 1900);
    if m.0 > 2 {
      MonthStartGrows(2, m.0, year - 1900);
    }
  }

  /** The exact domain of correctness. */
  lemma {:induction false} RightExactlyWhen(t: nat)
    ensures Tells(Converted(t), t)
            <==> (YearOf(t) % 400 != 0 && YearOf(t) % 400 != 300) || YearDay(t) < 59
  {
    var y, d := YearOf(t), YearDay(t);
    var tm := Converted(t);
    if tm.mon < 12 {
      ConvertedDay(t, DayOfYear(tm));
    }
    if y % 400 != 0 && y % 400 != 300 {
      MonthsAgree(y, d);
    } else {
      MonthsDisagree(y, d);
    }
  }

  /** The day of the year that is returned is always zero: with it, the formula gives t back on
      the first of January only. */
  lemma {:induction false} ReturnedYearDay(t: nat)
    ensures PosixSeconds(Converted(t), 0) == t <==> YearDay(t) == 0
  {
    ConvertedDay(t, 0);
  }

  lemma {:induction false} DateInYear(tm: Tm)
    requires IsDate(tm)
    ensures 0 <= DayOfYear(tm) < DaysInYear(tm.year + 1900)
  {
    MonthStartNext(tm.mon, tm.year + 1900);
    if tm.mon + 1 < 12 {
      MonthStartGrows(tm.mon + 1, 12, tm.year + 1900);
    }
  }

  lemma {:induction false} ClockIsUnique(s: nat, m: nat, h: nat, d: int, s2: nat, m2: nat, h2: nat, d2: int)
    requires s < 60 && m < 60 && h < 24 && s2 < 60 && m2 < 60 && h2 < 24
    requires s + m * 60 + h * 3600 + d * 86400 == s2 + m2 * 60 + h2 * 3600 + d2 * 86400
    ensures s == s2 && m == m2 && h == h2 && d == d2
  {
    RadixIsUnique(60, s, m + h * 60 + d * 1440, s2, m2 + h2 * 60 + d2 * 1440);
    RadixIsUnique(60, m, h + d * 24, m2, h2 + d2 * 24);
    RadixIsUnique(24, h, d, h2, d2);
  }

  lemma {:induction false} RadixIsUnique(n: int, r: nat, q: int, r2: nat, q2: int)
    requires (n == 60 || n == 24) && r < n && r2 < n && r + q * n == r2 + q2 * n
    ensures r == r2 && q == q2
  {
  }

  /** No time has two dates. */
  lemma {:induction false} DateIsUnique(a: Tm, b: Tm, t: nat)
    requires Tells(a, t) && Tells(b, t)
    ensures a == b
  {
    PosixIsDays(a, DayOfYear(a));
    PosixIsDays(b, DayOfYear(b));
    ClockIsUnique(a.sec, a.min, a.hour, DaysBefore(a.year + 1900) + DayOfYear(a),
                  b.sec, b.min, b.hour, DaysBefore(b.year + 1900) + DayOfYear(b));
    DateInYear(a);
    DateInYear(b);
    YearIsUnique(a.year + 1900, DayOfYear(a), b.year + 1900, DayOfYear(b));
    MonthIsUnique(a.mon, a.mday - 1, b.mon, b.mday - 1, a.year + 1900);
  }

  /** Round trip: a date of 1970 or later, put into the formula and converted, comes back exactly
      when its year is not one of the two in four hundred or it is before the 29th of February,
      or before the first of March of a common year. */
  lemma {:induction false} DateComesBack(tm: Tm)
    requires IsDate(tm) && PosixSeconds(tm, DayOfYear(tm)) >= 0
    ensures var year := tm.year + 1900;
            Converted(PosixSeconds(tm, DayOfYear(tm))) == tm
            <==> (year % 400 != 0 && year % 400 != 300) || DayOfYear(tm) < 59
  {
    var t := PosixSeconds(tm, DayOfYear(tm));
    RightExactlyWhen(t);
    YearOfDate(tm, t);
    if Tells(Converted(t), t) {
      DateIsUnique(tm, Converted(t), t);
    }
  }

  lemma {:induction false} YearOfDate(tm: Tm, t: nat)
    requires Tells(tm, t)
    ensures YearOf(t) == tm.year + 1900 && YearDay(t) == DayOfYear(tm)
  {
    PosixIsDays(tm, DayOfYear(tm));
    ClockIsRest(t);
    ClockIsUnique(tm.sec, tm.min, tm.hour, DaysBefore(tm.year + 1900) + DayOfYear(tm),
                  t % 60, t / 60 % 60, t / 3600 % 24, t / 86400);
    SplitYearExact(1970, t / 86400);
    DateInYear(tm);
    YearIsUnique(tm.year + 1900, DayOfYear(tm), YearOf(t), YearDay(t));
  }

  // ----- order -----

  function Fields(tm: Tm): seq<int> {
    [tm.year, tm.mon, tm.mday, tm.hour, tm.min, tm.sec]
  }

  /** Lexicographic order from the k-th field on. */
  predicate Precedes(a: seq<int>, b: seq<int>, k: nat)
    requires |a| == |b| && k <= |a|
    decreases |a| - k, a
  {
    k < |a| && (a[k] < b[k] || (a[k] == b[k] && Precedes(a, b, k + 1)))
  }

  lemma {:induction false} ClockGrows(s: nat, t: nat)
    requires s < t && s / 86400 == t / 86400
    ensures var (h, h2, m, m2) := (s / 3600 % 24, t / 3600 % 24, s / 60 % 60, t / 60 % 60);
            h < h2 || (h == h2 && (m < m2 || (m == m2 && s % 60 < t % 60)))
  {
    ClockIsRest(s);
    ClockIsRest(t);
  }

  lemma {:induction false} MonthGrows(d: nat, e: nat, year: int)
    requires d < e
    ensures var (m, n) := (SplitMonth(0, d, year), SplitMonth(0, e, year));
            m.0 < n.0 || (m.0 == n.0 && m.1 < n.1)
  {
    SplitMonthExact(0, d, year);
    SplitMonthExact(0, e, year);
    var m, n := SplitMonth(0, d, year), SplitMonth(0, e, year);
    if n.0 < m.0 {
      MonthStartGrows(n.0, m.0, year);
    }
  }

  lemma {:induction false} YearGrows(m: nat, n: nat)
    requires m < n
    ensures var (y, z) := (SplitYear(1970, m), SplitYear(1970, n));
            y.0 < z.0 || (y.0 == z.0 && y.1 < z.1)
  {
    SplitYearExact(1970, m);
    SplitYearExact(1970, n);
    var y, z := SplitYear(1970, m), SplitYear(1970, n);
    if z.0 < y.0 {
      DaysBeforeGrows(z.0, y.0);
    }
  }

  lemma {:induction false} FirstDifference(a: seq<int>, b: seq<int>, j: nat, k: nat)
    requires |a| == |b| && j <= k < |a| && a[k] < b[k] && forall i | 0 <= i < k :: a[i] == b[i]
    ensures Precedes(a, b, j)
    decreases k - j
  {
    if j < k {
      FirstDifference(a, b, j + 1, k);
    }
  }

  lemma {:induction false} LaterDay(s: nat, t: nat)
    requires s / 86400 < t / 86400
    ensures Precedes(Fields(Converted(s)), Fields(Converted(t)), 0)
  {
    YearGrows(s / 86400, t / 86400);
    if YearOf(s) < YearOf(t) {
      FirstDifference(Fields(Converted(s)), Fields(Converted(t)), 0, 0);
    } else {
      LaterInYear(s, t);
    }
  }

  lemma {:induction false} LaterInYear(s: nat, t: nat)
    requires YearOf(s) == YearOf(t) && YearDay(s) < YearDay(t)
    ensures Precedes(Fields(Converted(s)), Fields(Converted(t)), 0)
  {
    var a, b := Fields(Converted(s)), Fields(Converted(t));
    MonthGrows(YearDay(s), YearDay(t), YearOf(s) - 1900);
    FirstDifference(a, b, 0, if a[1] < b[1] then 1 else 2);
  }

  /** Later times convert to later results, field by field, in the wrong years too. */
  lemma {:induction false} ConversionIsMonotone(s: nat, t: nat)
    requires s < t
    ensures Precedes(Fields(Converted(s)), Fields(Converted(t)), 0)
  {
    DaysGrow(s, t);
    if s / 86400 < t / 86400 {
      LaterDay(s, t);
    } else {
      var a, b := Fields(Converted(s)), Fields(Converted(t));
      ClockGrows(s, t);
      FirstDifference(a, b, 0, if a[3] < b[3] then 3 else if a[4] < b[4] then 4 else 5);
    }
  }

  lemma {:induction false} DaysGrow(s: nat, t: nat)
    requires s < t
    ensures s / 86400 <= t / 86400
  {
  }

  /** The months run out on the last day of a leap year that is a multiple of 400, and only then. */
  lemma {:induction false} ThirteenthMonth(t: nat)
    ensures Converted(t).mon == 12 <==> YearOf(t) % 400 == 0 && YearDay(t) == 365
  {
    SameFebruary(YearOf(t));
    MonthsRunOut(YearDay(t), YearOf(t) - 1900);
  }

  lemma {:induction false} MonthsRunOut(d: nat, year: int)
    ensures SplitMonth(0, d, year).0 == 12 <==> d >= DaysInYear(year)
  {
    SplitMonthExact(0, d, year);
    var m := SplitMonth(0, d, year);
    if m.0 < 12 {
      MonthStartGrows(m.0, 12, year);
    }
  }

  lemma {:induction false} YearOf978220800(t: nat, year: int)
    requires t == 978220800 && year == 2000
    ensures YearOf(t) == year && YearDay(t) == 365
  {
    assert t / 86400 == 11322 && DaysBefore(1970) == 0 && DaysBefore(year) == 10957;
    SplitYearExact(1970, t / 86400);
    YearIsUnique(year, 365, YearOf(t), YearDay(t));
  }

  /** One such second is midnight of the 31st of December 2000. */
  lemma {:induction false} LastDayOf2000(t: nat)
    requires t == 978220800
    ensures Converted(t).mon == 12 && !Tells(Converted(t), t)
  {
    YearOf978220800(t, 2000);
    ThirteenthMonth(t);
    RightExactlyWhen(t);
  }
}
