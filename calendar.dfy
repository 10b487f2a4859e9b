/** The proleptic Gregorian calendar of Python's `datetime.date`: civil dates,
    their day ordinals (0001-01-01 is day 1, as `date.toordinal` counts) and
    the three calendar tests `_year`, `_month` and `_week` of `BankAccount`. */
module Calendar {
  import opened Wrappers

  datatype Date = Date(year: int, month: int, day: int)
  {
    predicate Valid()
    {
      1 <= year && 1 <= month <= 12 && 1 <= day <= DaysInMonth(year, month)
    }
  }

  predicate IsLeap(y: int)
  {
    y % 4 == 0 && (y % 100 != 0 || y % 400 == 0)
  }

  function YearLength(y: int): int
  {
    if IsLeap(y) then 366 else 365
  }

  function DaysInMonth(y: int, m: int): (n: int)
    requires 1 <= m <= 12
    ensures 28 <= n <= 31
  {
    if m == 2 then (if IsLeap(y) then 29 else 28)
    else if m == 4 || m == 6 || m == 9 || m == 11 then 30
    else 31
  }

  /** Days of year `y` before the first of month `m`. */
  function DaysBeforeMonth(y: int, m: int): int
    requires 1 <= m <= 12
  {
    var common :=
      match m
      case 1 => 0    case 2 => 31   case 3 => 59   case 4 => 90
      case 5 => 120  case 6 => 151  case 7 => 181  case 8 => 212
      case 9 => 243  case 10 => 273 case 11 => 304 case _ => 334;
    common + (if m > 2 && IsLeap(y) then 1 else 0)
  }

  /** Days before January 1 of year `y`, counted from 0001-01-01. */
  function DaysBeforeYear(y: int): int
    requires y >= 1
  {
    var p := y - 1;
    p * 365 + p / 4 - p / 100 + p / 400
  }

  /** Ordinal of the day before the first of month `m` of year `y`. */
  function MonthBase(y: int, m: int): int
    requires y >= 1 && 1 <= m <= 12
  {
    DaysBeforeYear(y) + DaysBeforeMonth(y, m)
  }

  function Ordinal(d: Date): int
    requires d.Valid()
  {
    MonthBase(d.year, d.month) + d.day
  }

  /** Monday is 0 and Sunday is 6, as `date.weekday` numbers them. */
  function Weekday(ordinal: int): int
  {
    (ordinal + 6) % 7
  }

  function NextMonth(y: int, m: int): (r: (int, int))
    requires 1 <= m <= 12
    ensures 1 <= r.1 <= 12 && r.0 >= y
  {
    if m == 12 then (y + 1, 1) else (y, m + 1)
  }

  lemma YearStep(y: int)
    requires y >= 1
    ensures DaysBeforeYear(y + 1) == DaysBeforeYear(y) + YearLength(y)
  {
    Step4(y);
    Step100(y);
    Step400(y);
    Multiples(y);
  }

  /** A multiple of 400 is a multiple of 100, and one of 100 a multiple
      of 4. */
  lemma Multiples(y: int)
    ensures y % 400 == 0 ==> y % 100 == 0
    ensures y % 100 == 0 ==> y % 4 == 0
  {
    if y % 400 == 0 {
      var q := y / 400;
      Split100(y, 4 * q, 0);
    }
    if y % 100 == 0 {
      var q := y / 100;
      Split4(y, 25 * q, 0);
    }
  }

  lemma Split100(y: int, q: int, r: int)
    requires y == 100 * q + r && 0 <= r < 100
    ensures y % 100 == r
  {
  }

  lemma Split4(y: int, q: int, r: int)
    requires y == 4 * q + r && 0 <= r < 4
    ensures y % 4 == r
  {
  }

  lemma Step4(y: int)
    ensures y / 4 - (y - 1) / 4 == if y % 4 == 0 then 1 else 0
  {
    var q, r := (y - 1) / 4, (y - 1) % 4;
    assert y == 4 * q + r + 1;
  }

  lemma Step100(y: int)
    ensures y / 100 - (y - 1) / 100 == if y % 100 == 0 then 1 else 0
  {
    var q, r := (y - 1) / 100, (y - 1) % 100;
    assert y == 100 * q + r + 1;
  }

  lemma Step400(y: int)
    ensures y / 400 - (y - 1) / 400 == if y % 400 == 0 then 1 else 0
  {
    var q, r := (y - 1) / 400, (y - 1) % 400;
    assert y == 400 * q + r + 1;
  }

  /** The month after (y, m) starts right after the last day of (y, m). */
  lemma NextMonthBase(y: int, m: int)
    requires y >= 1 && 1 <= m <= 12
    ensures var (ny, nm) := NextMonth(y, m);
            MonthBase(ny, nm) == MonthBase(y, m) + DaysInMonth(y, m)
  {
    if m == 12 {
      YearStep(y);
    }
  }

  /** Every day of year `y` lies after the start of the year and no later
      than its last day. */
  lemma OrdinalInYear(d: Date)
    requires d.Valid()
    ensures DaysBeforeYear(d.year) < Ordinal(d) <= DaysBeforeYear(d.year + 1)
  {
    YearStep(d.year);
  }

  /** `_year`: on December 31 it answers January 1 of the same year, the
      start of the year that just ended; on every other day it answers no. */
  function YearEnd(d: Date): (r: Option<Date>)
    requires d.Valid()
    ensures r.Some? <==> d.month == 12 && d.day == 31
    ensures r.Some? ==> r.value.Valid() && r.value.year == d.year
                        && Ordinal(d) - Ordinal(r.value) == YearLength(d.year) - 1
  {
    if d.month == 12 && d.day == 31 then Some(Date(d.year, 1, 1)) else None
  }

  /** The step `_month` takes: 32 days after the first of a month is a day of
      the following month, so resetting its day to 1 gives the first of the
      following month. */
  lemma MonthJump(y: int, m: int)
    requires y >= 1 && 1 <= m <= 12
    ensures var (ny, nm) := NextMonth(y, m);
            MonthBase(ny, nm) < Ordinal(Date(y, m, 1)) + 32 <= MonthBase(ny, nm) + DaysInMonth(ny, nm)
  {
    NextMonthBase(y, m);
  }

  /** `_month`: a date is the last of its month when it is the day before the
      first of the following month, which `_month` reaches by stepping 32
      days from the first of the month and resetting the day to 1
      (`MonthJump`); it then answers the first of its month. */
  function MonthEnd(d: Date): (r: Option<Date>)
    requires d.Valid()
    ensures r.Some? <==> d.day == DaysInMonth(d.year, d.month)
    ensures r.Some? ==> r.value.Valid() && r.value.year == d.year && r.value.month == d.month
                        && Ordinal(d) - Ordinal(r.value) == DaysInMonth(d.year, d.month) - 1
  {
    var (ny, nm) := NextMonth(d.year, d.month);
    NextMonthBase(d.year, d.month);
    MonthJump(d.year, d.month);
    if Ordinal(d) == Ordinal(Date(ny, nm, 1)) - 1 then Some(Date(d.year, d.month, 1)) else None
  }

  /** `_week`: on a Sunday it answers the Monday that starts that week. */
  function WeekEnd(d: Date): (r: Option<int>)
    requires d.Valid()
    ensures r.Some? <==> Weekday(Ordinal(d)) == 6
    ensures r.Some? ==> Weekday(r.value) == 0 && Ordinal(d) - r.value == 6
  {
    var o := Ordinal(d);
    if Weekday(o) == 6 then WeekdayBack(o); Some(o - 6) else None
  }

  /** Six days before a Sunday is a Monday. */
  lemma WeekdayBack(o: int)
    requires Weekday(o) == 6
    ensures Weekday(o - 6) == 0
  {
    var q := (o + 6) / 7;
    assert o + 6 == 7 * q + 6;
    assert o == 7 * q;
  }
}
