/** UTC calendar arithmetic (Go's time package): the proleptic Gregorian calendar over day
    numbers counted from 1970-01-01. */
module Calendar {

  predicate IsLeap(y: int) { y % 4 == 0 && (y % 100 != 0 || y % 400 == 0) }

  function YearLength(y: int): nat { if IsLeap(y) then 366 else 365 }

  /** Days from 0001-01-01 to January 1 of year `y`. */
  function DaysBeforeYear(y: int): int {
    365 * (y - 1) + (y - 1) / 4 - (y - 1) / 100 + (y - 1) / 400
  }

  /** Days from January 1 to the first of month `m`; month 13 is next January. */
  function DaysBeforeMonth(y: int, m: nat): (d: nat)
    requires 1 <= m <= 13
  {
    var leap := if IsLeap(y) then 1 else 0;
    if m == 1 then 0
    else if m == 2 then 31
    else leap + [59, 90, 120, 151, 181, 212, 243, 273, 304, 334, 365][m - 3]
  }

  const EPOCH_DAY := 719162   // 1970-01-01, counted from 0001-01-01

  // time.Date(y, m, d, 0, 0, 0, 0, time.UTC), as a day number; `d` may lie outside the month.
  function DateDay(y: int, m: nat, d: int): int
    requires 1 <= m <= 12
  {
    DaysBeforeYear(y) + DaysBeforeMonth(y, m) + (d - 1) - EPOCH_DAY
  }

  datatype YearDay = YearDay(year: int, yday: nat)

  /** The year a day falls in, by cutting off 400-, 100-, 4- and 1-year cycles. */
  function YearDayOf(day: int): YearDay {
    var n := day + EPOCH_DAY;
    var (a, r1) := (n / 146097, n % 146097);
    var b := if r1 / 36524 == 4 then 3 else r1 / 36524;
    var r2 := r1 - b * 36524;
    var (c, r3) := (r2 / 1461, r2 % 1461);
    var d := if r3 / 365 == 4 then 3 else r3 / 365;
    YearDay(400 * a + 100 * b + 4 * c + d + 1, r3 - d * 365)
  }

  function MonthOf(y: int, yday: nat): (m: nat)
    requires yday < YearLength(y)
    ensures 1 <= m <= 12
    ensures DaysBeforeMonth(y, m) <= yday < DaysBeforeMonth(y, m + 1)
  {
    if yday < DaysBeforeMonth(y, 2) then 1
    else if yday < DaysBeforeMonth(y, 3) then 2
    else if yday < DaysBeforeMonth(y, 4) then 3
    else if yday < DaysBeforeMonth(y, 5) then 4
    else if yday < DaysBeforeMonth(y, 6) then 5
    else if yday < DaysBeforeMonth(y, 7) then 6
    else if yday < DaysBeforeMonth(y, 8) then 7
    else if yday < DaysBeforeMonth(y, 9) then 8
    else if yday < DaysBeforeMonth(y, 10) then 9
    else if yday < DaysBeforeMonth(y, 11) then 10
    else if yday < DaysBeforeMonth(y, 12) then 11
    else 12
  }

  /** The cycles give back the year's first day. */
  lemma CyclesSplitYears(a: int, b: nat, c: nat, d: nat)
    requires b <= 3 && c <= 24 && d <= 3
    ensures DaysBeforeYear(400 * a + 100 * b + 4 * c + d + 1) == 146097 * a + 36524 * b + 1461 * c + 365 * d
    ensures IsLeap(400 * a + 100 * b + 4 * c + d + 1) <==> d == 3 && (c != 24 || b == 3)
  {
    By4(100 * a + 25 * b + c, d);
    By100(4 * a + b, 4 * c + d);
    By400(a, 100 * b + 4 * c + d);
  }

  lemma By4(q: int, r: nat)
    requires r < 4
    ensures (4 * q + r) / 4 == q
    ensures (4 * q + r + 1) % 4 == 0 <==> r == 3
  {
  }

  lemma By100(q: int, r: nat)
    requires r < 100
    ensures (100 * q + r) / 100 == q
    ensures (100 * q + r + 1) % 100 == 0 <==> r == 99
  {
  }

  lemma By400(q: int, r: nat)
    requires r < 400
    ensures (400 * q + r) / 400 == q
    ensures (400 * q + r + 1) % 400 == 0 <==> r == 399
  {
  }

  lemma YearDayIsExact(day: int)
    ensures var yd := YearDayOf(day);
      yd.yday < YearLength(yd.year) && DaysBeforeYear(yd.year) + yd.yday == day + EPOCH_DAY
  {
    var n := day + EPOCH_DAY;
    var (a, r1) := (n / 146097, n % 146097);
    var b := if r1 / 36524 == 4 then 3 else r1 / 36524;
    var r2 := r1 - b * 36524;
    var (c, r3) := (r2 / 1461, r2 % 1461);
    var d := if r3 / 365 == 4 then 3 else r3 / 365;
    CyclesSplitYears(a, b, c, d);
  }

  datatype Civil = Civil(year: int, month: nat, day: nat)

  // t.Year(), t.Month(), t.Day()
  function CivilOf(day: int): (c: Civil)
    ensures 1 <= c.month <= 12 && c.day >= 1
    ensures c.day <= DaysBeforeMonth(c.year, c.month + 1) - DaysBeforeMonth(c.year, c.month)
  {
    YearDayIsExact(day);
    var yd := YearDayOf(day);
    var m := MonthOf(yd.year, yd.yday);
    Civil(yd.year, m, yd.yday - DaysBeforeMonth(yd.year, m) + 1)
  }

  /** Reading the calendar fields of a day and building the date again gives the same day. */
  lemma CivilRoundTrip(day: int)
    ensures DateDay(CivilOf(day).year, CivilOf(day).month, CivilOf(day).day) == day
  {
    YearDayIsExact(day);
  }

  // t.Weekday(): Sunday is 0, and 1970-01-01 was a Thursday.
  function Weekday(day: int): (w: nat)
    ensures w < 7
  {
    (day + 4) % 7
  }

  /** Going back `(weekday + 6) % 7` days is flooring to the grid of Mondays. */
  lemma MondayShiftIsFloor(day: int)
    ensures day - (Weekday(day) + 6) % 7 == (day + 3) / 7 * 7 - 3
    ensures Weekday(day - (Weekday(day) + 6) % 7) == 1
  {
  }
}
