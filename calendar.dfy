/** Date arithmetic of ECMAScript's `Date` (ECMA-262, section 21.4.1, "Time
    Values and Time Range"), over integer milliseconds since the epoch, in
    UTC. This is what `new Date(year, month, day, h, min, s, ms)` computes in
    the expense list query, including its normalisation of out-of-range
    month and day numbers ("day 0 of next month" is the last day of this
    month). Alongside it, a plain civil-calendar reference (day numbers of
    year/month/day triples) against which the query bounds are proved. */
module Calendar {

  // Time values count milliseconds; a day is 86400000 of them (msPerDay).

  predicate InLeapYear(y: int) {
    y % 4 == 0 && (y % 100 != 0 || y % 400 == 0)
  }

  function DaysInYear(y: int): (n: int)
    ensures n == 365 || n == 366
    ensures n == 366 <==> InLeapYear(y)
  {
    if InLeapYear(y) then 366 else 365
  }

  /** DayFromYear of ECMA-262: the day number of January 1 of year `y`,
      day 0 being January 1, 1970. ECMA-262 gives it in closed form; here it
      is the sum of the lengths of the years in between. */
  function DayFromYear(y: int): int
    decreases if y >= 1970 then y - 1970 else 1970 - y
  {
    if y == 1970 then 0
    else if y > 1970 then DayFromYear(y - 1) + DaysInYear(y - 1)
    else DayFromYear(y + 1) - DaysInYear(y)
  }

  /** Days of the year before the first day of the 0-based month `m0`:
      the lengths of the months before it, added up. */
  function DaysBeforeMonth(y: int, m0: int): int
    requires 0 <= m0 < 12
  {
    if m0 == 0 then 0 else DaysBeforeMonth(y, m0 - 1) + MonthLength(y, m0)
  }

  /** The length of the 1-based month `m` of year `y`. */
  function MonthLength(y: int, m: int): (n: int)
    requires 1 <= m <= 12
    ensures 28 <= n <= 31
    ensures n == 29 <==> m == 2 && InLeapYear(y)
    ensures n == 28 <==> m == 2 && !InLeapYear(y)
    ensures n == 30 <==> m in {4, 6, 9, 11}
  {
    if m == 2 then (if InLeapYear(y) then 29 else 28)
    else if m in {4, 6, 9, 11} then 30
    else 31
  }

  /** Civil reference: the day number of year `y`, 1-based month `m`, day `d`. */
  function CivilDay(y: int, m: int, d: int): int
    requires 1 <= m <= 12
  {
    DayFromYear(y) + DaysBeforeMonth(y, m - 1) + d - 1
  }

  /** The instant `tod` milliseconds into civil day (y, m, d). */
  function Instant(y: int, m: int, d: int, tod: int): int
    requires 1 <= m <= 12
  {
    CivilDay(y, m, d) * 86400000 + tod
  }

  /** MakeTime of ECMA-262. */
  function MakeTime(h: int, min: int, s: int, ms: int): int {
    h * 3600000 + min * 60000 + s * 1000 + ms
  }

  /** MakeDay of ECMA-262: the month index is 0-based and may lie outside
      0..11 (it carries into the year), the day may lie outside the month. */
  function MakeDay(year: int, month: int, date: int): int {
    var ym := year + month / 12;
    var mn := month % 12;
    DayFromYear(ym) + DaysBeforeMonth(ym, mn) + date - 1
  }

  /** MakeDate of ECMA-262. */
  function MakeDate(day: int, time: int): int {
    day * 86400000 + time
  }

  /** The `Date` constructor maps a year from 0 through 99 to 1900 + year. */
  function FullYear(y: int): (r: int)
    ensures 0 <= y <= 99 ==> r == 1900 + y
    ensures !(0 <= y <= 99) ==> r == y
  {
    if 0 <= y <= 99 then 1900 + y else y
  }

  /** Consecutive years start a year's length apart. */
  lemma DayFromYearNext(y: int)
    ensures DayFromYear(y + 1) == DayFromYear(y) + DaysInYear(y)
  {}

  /** The first days of the months: 0, 31, 59 (60 in a leap year), and so on;
      December starts 31 days before the year ends. */
  lemma DaysBeforeDecember(y: int)
    ensures DaysBeforeMonth(y, 11) == DaysInYear(y) - 31
  {
    var leap := if InLeapYear(y) then 1 else 0;
    assert DaysBeforeMonth(y, 1) == 31;
    assert DaysBeforeMonth(y, 2) == 59 + leap;
    assert DaysBeforeMonth(y, 3) == 90 + leap;
    assert DaysBeforeMonth(y, 4) == 120 + leap;
    assert DaysBeforeMonth(y, 5) == 151 + leap;
    assert DaysBeforeMonth(y, 6) == 181 + leap;
    assert DaysBeforeMonth(y, 7) == 212 + leap;
    assert DaysBeforeMonth(y, 8) == 243 + leap;
    assert DaysBeforeMonth(y, 9) == 273 + leap;
    assert DaysBeforeMonth(y, 10) == 304 + leap;
  }

  /** Months follow each other without gaps: the next month starts right
      after this month's last day, and December ends the year. */
  lemma MonthsAbut(y: int, m: int)
    requires 1 <= m <= 12
    ensures m < 12 ==> CivilDay(y, m + 1, 1) == CivilDay(y, m, MonthLength(y, m)) + 1
    ensures m == 12 ==> CivilDay(y + 1, 1, 1) == CivilDay(y, 12, 31) + 1
  {
    if m == 12 {
      DayFromYearNext(y);
      DaysBeforeDecember(y);
    }
  }

  /** The first day of 1-based month `m`, as the query computes it
      (`new Date(year, m - 1, 1)`), is day 1 of that civil month. */
  lemma MonthStartIsFirstDay(y: int, m: int)
    requires 1 <= m <= 12
    ensures MakeDay(y, m - 1, 1) == CivilDay(y, m, 1)
  {
    assert (m - 1) / 12 == 0 && (m - 1) % 12 == m - 1;
  }

  /** "Day 0 of next month" (`new Date(year, m, 0)` with the 0-based month
      index `m` of the month after) is the last day of month `m`: the 28th,
      29th, 30th or 31st as the month and leap year decide, and for December
      it stays in the same year. */
  lemma {:induction false} DayZeroOfNextMonth(y: int, m: int)
    requires 1 <= m <= 12
    ensures MakeDay(y, m, 0) == CivilDay(y, m, MonthLength(y, m))
  {
    MonthsAbut(y, m);
    if m == 12 {
      assert 12 / 12 == 1 && 12 % 12 == 0;
      assert MakeDay(y, 12, 0) == DayFromYear(y + 1) - 1;
    } else {
      assert m / 12 == 0 && m % 12 == m;
      assert MakeDay(y, m, 0) == CivilDay(y, m + 1, 1) - 1;
    }
  }

  /** The first and last instant of civil month (y, m). */
  function MonthStart(y: int, m: int): int
    requires 1 <= m <= 12
  {
    Instant(y, m, 1, 0)
  }

  function MonthLast(y: int, m: int): int
    requires 1 <= m <= 12
  {
    Instant(y, m, MonthLength(y, m), 86399999)
  }

  /** An instant lies in civil month (y, m) when its day number is one of
      the month's days. */
  predicate InMonth(t: int, y: int, m: int)
    requires 1 <= m <= 12
  {
    CivilDay(y, m, 1) <= t / 86400000 <= CivilDay(y, m, MonthLength(y, m))
  }

  /** The first instant of civil year y. */
  function YearStart(y: int): int {
    DayFromYear(y) * 86400000
  }

  /** An instant lies in civil year y from the year's first instant up to,
      not including, the next year's. */
  predicate InYear(t: int, y: int) {
    YearStart(y) <= t < YearStart(y + 1)
  }

  lemma InstantDay(day: int, tod: int)
    requires 0 <= tod < 86400000
    ensures (day * 86400000 + tod) / 86400000 == day
  {}

  /** A window of whole days [first, last] holds exactly the instants whose
      day number lies between them. */
  lemma DayWindow(t: int, first: int, last: int)
    ensures first * 86400000 <= t <= last * 86400000 + 86399999
            <==> first <= t / 86400000 <= last
  {}

  /** Every instant of civil month (y, m) is `tod` milliseconds into one of
      its days, and every such instant is in the month. */
  lemma InMonthIffDayOfMonth(t: int, y: int, m: int)
    requires 1 <= m <= 12
    ensures InMonth(t, y, m) <==>
      (var d := t / 86400000 - CivilDay(y, m, 1) + 1;
       1 <= d <= MonthLength(y, m) && t == Instant(y, m, d, t % 86400000))
  {}

  /** Instant-level bounds of the civil month. */
  lemma MonthBounds(t: int, y: int, m: int)
    requires 1 <= m <= 12
    ensures MonthStart(y, m) <= t <= MonthLast(y, m) <==> InMonth(t, y, m)
  {
    DayWindow(t, CivilDay(y, m, 1), CivilDay(y, m, MonthLength(y, m)));
  }

  /** An instant is in civil year y exactly when its day number is one of
      the year's days. */
  lemma InYearIffDayOfYear(t: int, y: int)
    ensures InYear(t, y) <==> DayFromYear(y) <= t / 86400000 < DayFromYear(y + 1)
  {
    DayWindow(t, DayFromYear(y), DayFromYear(y + 1) - 1);
  }

  /** The lower bound the list query builds for a year and 1-based month,
      `new Date(year, m - 1, 1)`, is the first instant of that civil month. */
  lemma MonthQueryStart(y: int, m: int)
    requires 1 <= m <= 12
    ensures MakeDate(MakeDay(y, m - 1, 1), 0) == MonthStart(y, m)
  {
    MonthStartIsFirstDay(y, m);
  }

  /** The upper bound, `new Date(year, m, 0, 23, 59, 59, 999)` (23:59:59.999
      on day 0 of the next month), is the last instant of that civil month. */
  lemma MonthQueryEnd(y: int, m: int)
    requires 1 <= m <= 12
    ensures MakeDate(MakeDay(y, m, 0), MakeTime(23, 59, 59, 999)) == MonthLast(y, m)
  {
    DayZeroOfNextMonth(y, m);
  }

  /** The bounds the list query builds for a year alone, `new Date(year, 0, 1)`
      and `new Date(year, 11, 31, 23, 59, 59, 999)`, are the first instant of
      that civil year and the last one before the next year starts. */
  lemma YearQueryStart(y: int)
    ensures MakeDate(MakeDay(y, 0, 1), 0) == YearStart(y)
  {
    assert MakeDay(y, 0, 1) == DayFromYear(y) by {
      assert 0 / 12 == 0 && 0 % 12 == 0;
    }
  }

  lemma YearQueryEnd(y: int)
    ensures MakeDate(MakeDay(y, 11, 31), MakeTime(23, 59, 59, 999)) == YearStart(y + 1) - 1
  {
    assert MakeDay(y, 11, 31) == DayFromYear(y + 1) - 1 by {
      assert 11 / 12 == 0 && 11 % 12 == 11;
      DayFromYearNext(y);
      DaysBeforeDecember(y);
    }
  }
}
