/**
 * The civil calendar behind `Date.UTC` and the `getUTC...` getters: day numbers, the
 * dates they stand for, and the weekday (ECMA-262, section 21.4.1). Day 0 is 1970-01-01.
 */
module Civil {

  /** A proleptic Gregorian date; months and days count from 1. */
  datatype Date = Date(y: int, m: int, d: int)

  predicate Leap(y: int) {
    y % 4 == 0 && (y % 100 != 0 || y % 400 == 0)
  }

  function MonthDays(leap: bool, m: int): int {
    if m == 2 then (if leap then 29 else 28)
    else if m == 4 || m == 6 || m == 9 || m == 11 then 30
    else 31
  }

  predicate Valid(c: Date) {
    1 <= c.m <= 12 && 1 <= c.d <= MonthDays(Leap(c.y), c.m)
  }

  /** The calendar's own rule for "tomorrow"; the arithmetic below is checked against it. */
  function Tomorrow(c: Date): Date {
    if c.d < MonthDays(Leap(c.y), c.m) then Date(c.y, c.m, c.d + 1)
    else if c.m < 12 then Date(c.y, c.m + 1, 1)
    else Date(c.y + 1, 1, 1)
  }

  function YearDays(y: int): int {
    if Leap(y) then 366 else 365
  }

  /** Day number of the first of January: the years between are counted one by one. */
  function YearStart(y: int): int
    decreases if y < 1970 then 1970 - y else y - 1970
  {
    if y == 1970 then 0
    else if y > 1970 then YearStart(y - 1) + YearDays(y - 1)
    else YearStart(y + 1) - YearDays(y)
  }

  /** DayFromYear, the closed form of section 21.4.1.3 of ECMA-262. */
  function DayFromYear(y: int): int {
    365 * (y - 1970) + (y - 1969) / 4 - (y - 1901) / 100 + (y - 1601) / 400
  }

  /** Days of the year before month m. */
  function MonthStart(leap: bool, m: int): int {
    if m <= 1 then 0
    else if m == 2 then 31
    else
      (if m == 3 then 59 else if m == 4 then 90 else if m == 5 then 120 else if m == 6 then 151
       else if m == 7 then 181 else if m == 8 then 212 else if m == 9 then 243 else if m == 10 then 273
       else if m == 11 then 304 else 334) + (if leap then 1 else 0)
  }

  /** MakeDay: months outside 0..11 and days outside the month carry over. */
  function DayOf(y: int, month0: int, d: int): int {
    var year := y + month0 / 12;
    YearStart(year) + MonthStart(Leap(year), month0 % 12 + 1) + d - 1
  }

  function DayOfDate(c: Date): int {
    DayOf(c.y, c.m - 1, c.d)
  }

  lemma QuotientSteps(a: int)
    ensures (a + 1) / 4 == a / 4 + (if a % 4 == 3 then 1 else 0)
    ensures (a + 1) / 100 == a / 100 + (if a % 100 == 99 then 1 else 0)
    ensures (a + 1) / 400 == a / 400 + (if a % 400 == 399 then 1 else 0)
  {
  }

  lemma Multiples(y: int)
    ensures y % 100 == 0 ==> y % 4 == 0
  {
    var q := y / 100;
    assert y == 4 * (25 * q) + y % 100;
  }

  lemma FourHundreds(y: int)
    ensures y % 400 == 0 ==> y % 100 == 0
  {
    var q := y / 400;
    assert y == 100 * (4 * q) + y % 400;
  }

  lemma DayFromYearStep(y: int)
    ensures DayFromYear(y + 1) == DayFromYear(y) + YearDays(y)
  {
    QuotientSteps(y - 1969);
    QuotientSteps(y - 1901);
    QuotientSteps(y - 1601);
    Multiples(y);
    FourHundreds(y);
  }

  lemma DayFromEpoch()
    ensures DayFromYear(1970) == 0
  {
  }

  /** Counting years and the closed form agree. */
  lemma {:induction false} YearStartClosed(y: int)
    ensures YearStart(y) == DayFromYear(y)
    decreases if y < 1970 then 1970 - y else y - 1970
  {
    hide DayFromYear, YearDays;
    if y == 1970 {
      DayFromEpoch();
    } else if y > 1970 {
      YearStartClosed(y - 1);
      DayFromYearStep(y - 1);
    } else {
      YearStartClosed(y + 1);
      DayFromYearStep(y);
    }
  }

  function YearUp(n: int, y: int): (r: int)
    requires YearStart(y) <= n
    ensures YearStart(r) <= n < YearStart(r + 1)
    decreases n - YearStart(y)
  {
    if n < YearStart(y + 1) then y else YearUp(n, y + 1)
  }

  function YearDown(n: int, y: int): (r: int)
    requires n < YearStart(y + 1)
    ensures YearStart(r) <= n < YearStart(r + 1)
    decreases YearStart(y + 1) - n
  {
    if YearStart(y) <= n then y else YearDown(n, y - 1)
  }

  /** YearFromTime: the year whose first day is the last one not after day n. */
  function YearOf(n: int): (y: int)
    ensures YearStart(y) <= n < YearStart(y + 1)
  {
    if n >= 0 then YearUp(n, 1970) else YearDown(n, 1969)
  }

  /** MonthFromTime: the month that holds day k (from 0) of the year. */
  function MonthOf(leap: bool, k: int): int {
    var extra := if leap then 1 else 0;
    if k < 31 then 1 else if k < 59 + extra then 2 else if k < 90 + extra then 3
    else if k < 120 + extra then 4 else if k < 151 + extra then 5 else if k < 181 + extra then 6
    else if k < 212 + extra then 7 else if k < 243 + extra then 8 else if k < 273 + extra then 9
    else if k < 304 + extra then 10 else if k < 334 + extra then 11 else 12
  }

  function DateIn(y: int, k: int): Date {
    var m := MonthOf(Leap(y), k);
    Date(y, m, k - MonthStart(Leap(y), m) + 1)
  }

  function DateOf(n: int): Date {
    var y := YearOf(n);
    DateIn(y, n - YearStart(y))
  }

  lemma YearsGrow(a: int, b: int)
    requires a <= b
    ensures YearStart(a) + 365 * (b - a) <= YearStart(b)
    decreases b - a
  {
    hide Leap;
    if a < b {
      assert YearStart(a + 1) == YearStart(a) + YearDays(a);
      YearsGrow(a + 1, b);
    }
  }

  lemma YearUnique(n: int, y: int)
    requires YearStart(y) <= n < YearStart(y + 1)
    ensures YearOf(n) == y
  {
    hide Leap, YearOf;
    var r := YearOf(n);
    if r < y {
      YearsGrow(r + 1, y);
    } else if r > y {
      YearsGrow(y + 1, r);
    }
  }

  lemma MonthOfIsInverse(leap: bool, k: int)
    requires 0 <= k < if leap then 366 else 365
    ensures var m := MonthOf(leap, k); 1 <= m <= 12 && 0 <= k - MonthStart(leap, m) < MonthDays(leap, m)
  {
  }

  lemma MonthOfUnique(leap: bool, m: int, d: int)
    requires 1 <= m <= 12 && 1 <= d <= MonthDays(leap, m)
    ensures MonthOf(leap, MonthStart(leap, m) + d - 1) == m
    ensures 0 <= MonthStart(leap, m) + d - 1 < if leap then 366 else 365
  {
  }

  lemma DayInYear(y: int, m: int, d: int)
    requires 1 <= m <= 12
    ensures DayOf(y, m - 1, d) == YearStart(y) + MonthStart(Leap(y), m) + d - 1
  {
    hide Leap, MonthStart;
    assert (m - 1) / 12 == 0 && (m - 1) % 12 == m - 1;
  }

  /** Every day number stands for a valid date that leads back to it ... */
  lemma DayRoundTrip(n: int)
    ensures Valid(DateOf(n))
    ensures DayOfDate(DateOf(n)) == n
  {
    hide Leap, MonthStart, MonthDays, MonthOf, YearOf, DayOf;
    var y := YearOf(n);
    MonthOfIsInverse(Leap(y), n - YearStart(y));
    var c := DateOf(n);
    DayInYear(c.y, c.m, c.d);
  }

  /** ... and every valid date for a day number that leads back to it. */
  lemma DateRoundTrip(c: Date)
    requires Valid(c)
    ensures DateOf(DayOfDate(c)) == c
  {
    hide Leap, MonthStart, MonthDays, MonthOf, YearOf, DayOf;
    DayInYear(c.y, c.m, c.d);
    MonthOfUnique(Leap(c.y), c.m, c.d);
    YearUnique(DayOfDate(c), c.y);
  }

  lemma TomorrowIsNext(c: Date)
    requires Valid(c)
    ensures Valid(Tomorrow(c)) && DayOfDate(Tomorrow(c)) == DayOfDate(c) + 1
  {
    hide Leap, YearOf, DayOf;
    DayInYear(c.y, c.m, c.d);
    var t := Tomorrow(c);
    DayInYear(t.y, t.m, t.d);
  }

  lemma Epoch()
    ensures Valid(Date(1970, 1, 1)) && DayOfDate(Date(1970, 1, 1)) == 0
  {
    assert YearStart(1970) == 0;
  }

  /** Adding one to a day number is the calendar's "tomorrow"; day 0 is the epoch. */
  lemma NextDay(n: int)
    ensures DateOf(n + 1) == Tomorrow(DateOf(n))
    ensures DateOf(0) == Date(1970, 1, 1)
  {
    hide DateOf, DayOfDate, Tomorrow, MonthDays, Leap;
    DayRoundTrip(n);
    TomorrowIsNext(DateOf(n));
    DateRoundTrip(Tomorrow(DateOf(n)));
    Epoch();
    DateRoundTrip(Date(1970, 1, 1));
  }

  /** Dates in calendar order. */
  predicate Earlier(a: Date, b: Date) {
    a.y < b.y || (a.y == b.y && (a.m < b.m || (a.m == b.m && a.d < b.d)))
  }

  lemma EarlierIsLess(a: Date, b: Date)
    requires Valid(a) && Valid(b) && Earlier(a, b)
    ensures DayOfDate(a) < DayOfDate(b)
  {
    hide Leap, YearOf, DayOf;
    DayInYear(a.y, a.m, a.d);
    DayInYear(b.y, b.m, b.d);
    if a.y < b.y {
      MonthOfUnique(Leap(a.y), a.m, a.d);
      MonthOfUnique(Leap(b.y), b.m, b.d);
      YearsGrow(a.y + 1, b.y);
    }
  }

  /** Day numbers order as their dates do. */
  lemma DayOrder(a: int, b: int)
    ensures a < b <==> Earlier(DateOf(a), DateOf(b))
  {
    hide DateOf, DayOfDate, Valid;
    DayRoundTrip(a);
    DayRoundTrip(b);
    if Earlier(DateOf(a), DateOf(b)) {
      EarlierIsLess(DateOf(a), DateOf(b));
    } else if Earlier(DateOf(b), DateOf(a)) {
      EarlierIsLess(DateOf(b), DateOf(a));
    }
  }

  /** WeekDay: 0 is Sunday, 4 is Thursday. */
  function WeekDay(n: int): int {
    (n + 4) % 7
  }

  /** Years 0 to 99 given to `Date.UTC` mean 1900 to 1999 (MakeFullYear). */
  function FullYear(y: int): int {
    if 0 <= y <= 99 then 1900 + y else y
  }

  /** Day number of `Date.UTC(y, month0, d)`. */
  function UtcDay(y: int, month0: int, d: int): int {
    DayOf(FullYear(y), month0, d)
  }

  lemma UtcDayOfDate(n: int, k: int)
    requires YearOf(n) < 0 || YearOf(n) >= 100
    ensures UtcDay(DateOf(n).y, DateOf(n).m - 1, DateOf(n).d + k) == n + k
  {
    hide Leap, MonthStart, MonthDays, MonthOf, YearOf;
    DayRoundTrip(n);
  }
}
