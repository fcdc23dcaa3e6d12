/** UTC calendar arithmetic on time values, after section 21.4.1 of ECMA-262. */
module Calendar {
  const MS_PER_MINUTE := 60_000
  const MS_PER_HOUR := 3_600_000
  const MS_PER_DAY := 86_400_000

  /** Month 1..12, date 1..31. */
  datatype Civil = Civil(year: int, month: int, date: int)

  function Day(t: int): int { t / MS_PER_DAY }

  function WeekDay(t: int): int { (Day(t) + 4) % 7 }

  function HourOf(t: int): int { t / MS_PER_HOUR % 24 }

  function MinuteOf(t: int): int { t / MS_PER_MINUTE % 60 }

  predicate IsLeap(y: int) {
    y % 4 == 0 && (y % 100 != 0 || y % 400 == 0)
  }

  function DayFromYear(y: int): int {
    365 * (y - 1970) + (y - 1969) / 4 - (y - 1901) / 100 + (y - 1601) / 400
  }

  /** Days before the first of a month. */
  function DaysBefore(month: int, leap: bool): int {
    var extra := if leap && month > 2 then 1 else 0;
    extra + (if month <= 1 then 0 else if month == 2 then 31 else if month == 3 then 59
             else if month == 4 then 90 else if month == 5 then 120 else if month == 6 then 151
             else if month == 7 then 181 else if month == 8 then 212 else if month == 9 then 243
             else if month == 10 then 273 else if month == 11 then 304 else if month == 12 then 334 else 365)
  }

  predicate ValidDate(c: Civil) {
    && 1 <= c.month <= 12 && 1 <= c.date
    && c.date <= DaysBefore(c.month + 1, IsLeap(c.year)) - DaysBefore(c.month, IsLeap(c.year))
  }

  function DayFromCivil(c: Civil): int {
    DayFromYear(c.year) + DaysBefore(c.month, IsLeap(c.year)) + c.date - 1
  }

  lemma YearLength(y: int)
    ensures DayFromYear(y + 1) - DayFromYear(y) == if IsLeap(y) then 366 else 365
  {
    Fours(y);
    Hundreds(y);
    FourHundreds(y);
    Multiples(y);
    LengthOf(y, (y - 1969) / 4, (y - 1901) / 100, (y - 1601) / 400);
  }

  /** The sum, with the three quotients as plain numbers. */
  lemma LengthOf(y: int, a: int, b: int, c: int)
    requires a == (y - 1969) / 4 && b == (y - 1901) / 100 && c == (y - 1601) / 400
    requires (y + 1 - 1969) / 4 == a + if y % 4 == 0 then 1 else 0
    requires (y + 1 - 1901) / 100 == b + if y % 100 == 0 then 1 else 0
    requires (y + 1 - 1601) / 400 == c + if y % 400 == 0 then 1 else 0
    requires (y % 400 == 0 ==> y % 100 == 0) && (y % 100 == 0 ==> y % 4 == 0)
    ensures DayFromYear(y + 1) - DayFromYear(y) == if IsLeap(y) then 366 else 365
  {
    assert DayFromYear(y) == 365 * (y - 1970) + a - b + c;
  }

  lemma Fours(y: int)
    ensures (y + 1 - 1969) / 4 == (y - 1969) / 4 + if y % 4 == 0 then 1 else 0
  {
  }

  lemma Hundreds(y: int)
    ensures (y + 1 - 1901) / 100 == (y - 1901) / 100 + if y % 100 == 0 then 1 else 0
  {
  }

  lemma FourHundreds(y: int)
    ensures (y + 1 - 1601) / 400 == (y - 1601) / 400 + if y % 400 == 0 then 1 else 0
  {
  }

  lemma Multiples(y: int)
    ensures (y % 400 == 0 ==> y % 100 == 0) && (y % 100 == 0 ==> y % 4 == 0)
  {
    HundredTimes(4 * (y / 400));
    FourTimes(25 * (y / 100));
    assert y % 400 == 0 ==> y == 100 * (4 * (y / 400));
    assert y % 100 == 0 ==> y == 4 * (25 * (y / 100));
  }

  lemma HundredTimes(k: int)
    ensures 100 * k % 100 == 0
  {
  }

  lemma FourTimes(k: int)
    ensures 4 * k % 4 == 0
  {
  }

  lemma {:induction false} YearsApart(a: int, b: int)
    requires a <= b
    ensures DayFromYear(b) - DayFromYear(a) >= 365 * (b - a)
    decreases b - a
  {
    if a < b {
      YearsApart(a, b - 1);
      YearLength(b - 1);
    }
  }

  /** The year a day falls in, found from a guess. */
  function YearOf(day: int, guess: int): (y: int)
    ensures DayFromYear(y) <= day < DayFromYear(y + 1)
    decreases day < DayFromYear(guess),
              if day < DayFromYear(guess) then DayFromYear(guess) - day else day - DayFromYear(guess)
  {
    YearLength(guess);
    YearLength(guess - 1);
    if day < DayFromYear(guess) then YearOf(day, guess - 1)
    else if day >= DayFromYear(guess + 1) then YearOf(day, guess + 1)
    else guess
  }

  function MonthOf(within: int, leap: bool): (m: int)
    requires 0 <= within < DaysBefore(13, leap)
    ensures 1 <= m <= 12 && DaysBefore(m, leap) <= within < DaysBefore(m + 1, leap)
  {
    if within < DaysBefore(2, leap) then 1
    else if within < DaysBefore(3, leap) then 2
    else if within < DaysBefore(4, leap) then 3
    else if within < DaysBefore(5, leap) then 4
    else if within < DaysBefore(6, leap) then 5
    else if within < DaysBefore(7, leap) then 6
    else if within < DaysBefore(8, leap) then 7
    else if within < DaysBefore(9, leap) then 8
    else if within < DaysBefore(10, leap) then 9
    else if within < DaysBefore(11, leap) then 10
    else if within < DaysBefore(12, leap) then 11
    else 12
  }

  function CivilOf(day: int): Civil {
    var y := YearOf(day, 1970);
    YearLength(y);
    var within := day - DayFromYear(y);
    var m := MonthOf(within, IsLeap(y));
    Civil(y, m, within - DaysBefore(m, IsLeap(y)) + 1)
  }

  lemma SameYear(day: int, a: int, b: int)
    requires DayFromYear(a) <= day < DayFromYear(a + 1) && DayFromYear(b) <= day < DayFromYear(b + 1)
    ensures a == b
  {
    hide DayFromYear;
    if a < b { YearsApart(a + 1, b); }
    if b < a { YearsApart(b + 1, a); }
  }

  /** Every day is exactly one valid calendar date. */
  lemma CivilRoundTrip(day: int, c: Civil)
    ensures ValidDate(CivilOf(day)) && DayFromCivil(CivilOf(day)) == day
    ensures ValidDate(c) && DayFromCivil(c) == day <==> c == CivilOf(day)
  {
    hide DayFromYear, IsLeap;
    var d := CivilOf(day);
    YearLength(d.year);
    if ValidDate(c) && DayFromCivil(c) == day {
      YearLength(c.year);
      MonthSpan(c.month, IsLeap(c.year));
      SameYear(day, c.year, d.year);
      MonthsInOrder(c.month, d.month, IsLeap(d.year));
      MonthsInOrder(d.month, c.month, IsLeap(d.year));
    }
  }

  lemma MonthSpan(m: int, leap: bool)
    requires 1 <= m <= 12
    ensures 0 <= DaysBefore(m, leap) && DaysBefore(m + 1, leap) <= (if leap then 366 else 365)
  {
  }

  lemma MonthsInOrder(a: int, b: int, leap: bool)
    requires 1 <= a <= 12 && 1 <= b <= 12
    ensures a < b ==> DaysBefore(a + 1, leap) <= DaysBefore(b, leap)
  {
  }

  function MonthLength(month: int, leap: bool): int {
    if month == 2 then (if leap then 29 else 28)
    else if month == 4 || month == 6 || month == 9 || month == 11 then 30
    else 31
  }

  function NextDate(c: Civil): Civil {
    var leap := c.year % 4 == 0 && (c.year % 100 != 0 || c.year % 400 == 0);
    if c.date < MonthLength(c.month, leap) then c.(date := c.date + 1)
    else if c.month < 12 then Civil(c.year, c.month + 1, 1)
    else Civil(c.year + 1, 1, 1)
  }

  /** Time 0 is Thursday, 1 January 1970, and from there day follows day by the Gregorian
      calendar. */
  lemma DaysFollow(day: int)
    ensures CivilOf(0) == Civil(1970, 1, 1) && WeekDay(0) == 4
    ensures CivilOf(day + 1) == NextDate(CivilOf(day))
    ensures WeekDay((day + 1) * MS_PER_DAY) == (WeekDay(day * MS_PER_DAY) + 1) % 7
  {
    hide CivilOf, DayFromCivil, ValidDate, NextDate, WeekDay;
    EpochDay();
    NextWeekDay(day);
    CivilRoundTrip(0, Civil(1970, 1, 1));
    var c := CivilOf(day);
    CivilRoundTrip(day, c);
    NextDateIs(c);
    CivilRoundTrip(day + 1, NextDate(c));
  }

  lemma EpochDay()
    ensures ValidDate(Civil(1970, 1, 1)) && DayFromCivil(Civil(1970, 1, 1)) == 0 && WeekDay(0) == 4
  {
  }

  lemma NextWeekDay(day: int)
    ensures WeekDay((day + 1) * MS_PER_DAY) == (WeekDay(day * MS_PER_DAY) + 1) % 7
  {
    assert Day((day + 1) * MS_PER_DAY) == day + 1 && Day(day * MS_PER_DAY) == day;
  }

  lemma NextDateIs(c: Civil)
    requires ValidDate(c)
    ensures ValidDate(NextDate(c)) && DayFromCivil(NextDate(c)) == DayFromCivil(c) + 1
  {
    hide DayFromYear;
    if c.month == 12 && c.date == 31 { YearLength(c.year); }
  }
}
