/** The Gregorian calendar in UTC, counted in days and minutes since 1970-01-01. */
module Calendar {

  predicate Leap(y: nat) {
    y % 4 == 0 && (y % 100 != 0 || y % 400 == 0)
  }

  function YearDays(y: nat): nat {
    if Leap(y) then 366 else 365
  }

  /** Months count from 1 to 12. */
  function MonthDays(m: nat, leap: bool): nat {
    if m == 2 then (if leap then 29 else 28)
    else if m == 4 || m == 6 || m == 9 || m == 11 then 30
    else 31
  }

  /** The days of a year before its month `m`. */
  function DaysBefore(m: nat, leap: bool): nat
    requires 1 <= m <= 13
  {
    if m == 1 then 0 else DaysBefore(m - 1, leap) + MonthDays(m - 1, leap)
  }

  // ---------------------------------------------------------------- from days to dates

  /** The year that contains the day `rem`, counted from the first day of year `y`. */
  function YearFrom(rem: nat, y: nat): nat
    decreases rem
  {
    if rem < YearDays(y) then y else YearFrom(rem - YearDays(y), y + 1)
  }

  /** That day's number in its year. */
  function YearDayFrom(rem: nat, y: nat): nat
    decreases rem
  {
    if rem < YearDays(y) then rem else YearDayFrom(rem - YearDays(y), y + 1)
  }

  function MonthFrom(rem: nat, m: nat, leap: bool): nat
    requires 1 <= m <= 12
    decreases 12 - m
  {
    if m == 12 || rem < MonthDays(m, leap) then m else MonthFrom(rem - MonthDays(m, leap), m + 1, leap)
  }

  function MonthDayFrom(rem: nat, m: nat, leap: bool): nat
    requires 1 <= m <= 12
    decreases 12 - m
  {
    if m == 12 || rem < MonthDays(m, leap) then rem + 1 else MonthDayFrom(rem - MonthDays(m, leap), m + 1, leap)
  }

  function YearOf(day: nat): nat {
    YearFrom(day, 1970)
  }

  function YearDayOf(day: nat): nat {
    YearDayFrom(day, 1970)
  }

  function MonthOf(day: nat): nat {
    MonthFrom(YearDayOf(day), 1, Leap(YearOf(day)))
  }

  function MonthDayOf(day: nat): nat {
    MonthDayFrom(YearDayOf(day), 1, Leap(YearOf(day)))
  }

  /** 0 is Sunday; 1970-01-01 was a Thursday. */
  function WeekdayOf(day: nat): nat {
    (day + 4) % 7
  }

  function DayOf(minute: nat): nat {
    minute / 1440
  }

  function HourOf(minute: nat): nat {
    minute / 60 % 24
  }

  function MinuteOf(minute: nat): nat {
    minute % 60
  }

  // ---------------------------------------------------------------- from dates to days

  /** The first day of the year `y`. */
  function YearStart(y: nat): nat
    requires y >= 1970
  {
    if y == 1970 then 0 else YearStart(y - 1) + YearDays(y - 1)
  }

  lemma {:induction false} YearFromStart(y0: nat, y: nat, rem: nat, k: nat)
    requires 1970 <= y0 <= y && k < YearDays(y) && rem == YearStart(y) - YearStart(y0) + k
    ensures YearFrom(rem, y0) == y && YearDayFrom(rem, y0) == k
    decreases y - y0
  {
    if y0 < y {
      YearsGrow(y0 + 1, y);
      YearFromStart(y0 + 1, y, rem - YearDays(y0), k);
    }
  }

  lemma {:induction false} YearsGrow(y0: nat, y: nat)
    requires 1970 <= y0 <= y
    ensures YearStart(y0) <= YearStart(y)
  {
    if y0 < y { YearsGrow(y0, y - 1); }
  }

  /** The day with the number `k` of the year `y` belongs to that year. */
  lemma {:induction false} DayInYear(y: nat, k: nat)
    requires y >= 1970 && k < YearDays(y)
    ensures YearOf(YearStart(y) + k) == y && YearDayOf(YearStart(y) + k) == k
  {
    YearFromStart(1970, y, YearStart(y) + k, k);
  }

  lemma {:induction false} YearFromSplit(rem: nat, y: nat)
    requires y >= 1970
    ensures YearFrom(rem, y) >= y && YearDayFrom(rem, y) < YearDays(YearFrom(rem, y))
    ensures YearStart(y) + rem == YearStart(YearFrom(rem, y)) + YearDayFrom(rem, y)
    decreases rem
  {
    if rem >= YearDays(y) { YearFromSplit(rem - YearDays(y), y + 1); }
  }

  /** Every day is some day of its year. */
  lemma {:induction false} YearSplit(day: nat)
    ensures YearOf(day) >= 1970 && YearDayOf(day) < YearDays(YearOf(day))
    ensures day == YearStart(YearOf(day)) + YearDayOf(day)
  {
    YearFromSplit(day, 1970);
  }

  lemma {:induction false} MonthFromStart(m0: nat, m: nat, leap: bool, rem: nat, k: nat)
    requires 1 <= m0 <= m <= 12 && k < MonthDays(m, leap) && rem == DaysBefore(m, leap) - DaysBefore(m0, leap) + k
    ensures MonthFrom(rem, m0, leap) == m && MonthDayFrom(rem, m0, leap) == k + 1
    decreases m - m0
  {
    if m0 < m {
      MonthsGrow(m0 + 1, m, leap);
      MonthFromStart(m0 + 1, m, leap, rem - MonthDays(m0, leap), k);
    }
  }

  lemma {:induction false} MonthsGrow(m0: nat, m: nat, leap: bool)
    requires 1 <= m0 <= m <= 13
    ensures DaysBefore(m0, leap) <= DaysBefore(m, leap)
  {
    if m0 < m { MonthsGrow(m0, m - 1, leap); }
  }

  lemma {:induction false} WholeYear(leap: bool)
    ensures DaysBefore(13, leap) == if leap then 366 else 365
  {
    assert DaysBefore(1, leap) == 0 && DaysBefore(2, leap) == 31;
    assert DaysBefore(3, leap) == 31 + MonthDays(2, leap);
    var c := DaysBefore(3, leap);
    assert DaysBefore(4, leap) == c + 31;
    assert DaysBefore(5, leap) == c + 61;
    assert DaysBefore(6, leap) == c + 92;
    assert DaysBefore(7, leap) == c + 122;
    assert DaysBefore(8, leap) == c + 153;
    assert DaysBefore(9, leap) == c + 184;
    assert DaysBefore(10, leap) == c + 214;
    assert DaysBefore(11, leap) == c + 245;
    assert DaysBefore(12, leap) == c + 275;
  }

  /** The day of the date. */
  function DayNumber(y: nat, m: nat, d: nat): nat
    requires y >= 1970 && 1 <= m <= 12 && d >= 1
  {
    YearStart(y) + DaysBefore(m, Leap(y)) + d - 1
  }

  /** A date that exists is the date of its day. */
  lemma {:induction false} DateReadBack(y: nat, m: nat, d: nat)
    requires y >= 1970 && 1 <= m <= 12 && 1 <= d <= MonthDays(m, Leap(y))
    ensures var day := DayNumber(y, m, d); YearOf(day) == y && MonthOf(day) == m && MonthDayOf(day) == d
  {
    var leap := Leap(y);
    WholeYear(leap);
    MonthsGrow(m + 1, 13, leap);
    DayInYear(y, DaysBefore(m, leap) + d - 1);
    MonthFromStart(1, m, leap, DaysBefore(m, leap) + d - 1, d - 1);
  }

  lemma {:induction false} MonthFromSplit(rem: nat, m: nat, leap: bool)
    requires 1 <= m <= 12 && DaysBefore(m, leap) + rem < DaysBefore(13, leap)
    ensures m <= MonthFrom(rem, m, leap) <= 12 && 1 <= MonthDayFrom(rem, m, leap) <= MonthDays(MonthFrom(rem, m, leap), leap)
    ensures DaysBefore(m, leap) + rem == DaysBefore(MonthFrom(rem, m, leap), leap) + MonthDayFrom(rem, m, leap) - 1
    decreases 12 - m
  {
    if m < 12 && rem >= MonthDays(m, leap) { MonthFromSplit(rem - MonthDays(m, leap), m + 1, leap); }
  }

  /** Every day has a date that exists, and is the day of that date. */
  lemma {:induction false} DateSplit(day: nat)
    ensures YearOf(day) >= 1970 && 1 <= MonthOf(day) <= 12 && 1 <= MonthDayOf(day) <= MonthDays(MonthOf(day), Leap(YearOf(day)))
    ensures day == DayNumber(YearOf(day), MonthOf(day), MonthDayOf(day))
  {
    YearSplit(day);
    var leap := Leap(YearOf(day));
    WholeYear(leap);
    MonthFromSplit(YearDayOf(day), 1, leap);
  }
}
