/**
 * The calendar arithmetic the core takes from `Date` and date-fns, on integer
 * time: instants are minutes since 1970-01-01 00:00, calendar days are day
 * serials (day 0 is 1970-01-01, a Thursday). Time zones and daylight saving
 * are not modelled; every day has 1440 minutes.
 */
module Calendar {

  const MinutesPerDay := 1440
  const MinutesPerHour := 60

  /** `startOfDay`: the midnight at or before `t`. */
  function StartOfDay(t: int): (m: int)
    ensures m <= t < m + MinutesPerDay && m % MinutesPerDay == 0
  {
    t - t % MinutesPerDay
  }

  /** The midnight that opens day serial `d`. */
  function Midnight(d: int): int
  {
    d * MinutesPerDay
  }

  /** `getDay()`: 0 for Sunday through 6 for Saturday. */
  function Weekday(d: int): (w: int)
    ensures 0 <= w < 7
  {
    (d + 4) % 7
  }

  predicate IsLeapYear(y: int)
  {
    y % 4 == 0 && (y % 100 != 0 || y % 400 == 0)
  }

  /** Number of days of month `m` (1..12) of year `y`: what `endOfMonth` reaches. */
  function DaysInMonth(y: int, m: int): (n: int)
    requires 1 <= m <= 12
    ensures 28 <= n <= 31
  {
    if m == 2 then (if IsLeapYear(y) then 29 else 28)
    else if m == 4 || m == 6 || m == 9 || m == 11 then 30
    else 31
  }

  /** Day serial of the proleptic Gregorian date y-m-d (H. Hinnant's days_from_civil). */
  function DaysFromCivil(y: int, m: int, d: int): int
    requires 1 <= m <= 12
  {
    var y' := if m <= 2 then y - 1 else y;
    var era := y' / 400;
    var yoe := y' - era * 400;
    var mp := if m > 2 then m - 3 else m + 9;
    var doy := (153 * mp + 2) / 5 + d - 1;
    var doe := yoe * 365 + yoe / 4 - yoe / 100 + doy;
    era * 146097 + doe - 719468
  }

  /** `getDate()`: the day of the month of day serial `d` (H. Hinnant's civil_from_days). */
  function DayOfMonth(d: int): int
  {
    var z := d + 719468;
    var era := z / 146097;
    var doe := z - era * 146097;
    var yoe := (doe - doe / 1460 + doe / 36524 - doe / 146096) / 365;
    var doy := doe - (365 * yoe + yoe / 4 - yoe / 100);
    var mp := (5 * doy + 2) / 153;
    doy - (153 * mp + 2) / 5 + 1
  }

  /** From one month's first day to the next month's first day is that month's
      length, so the day serials and the month lengths agree. */
  lemma MonthsAreConsecutive(y: int, m: int)
    requires 1 <= m < 12
    ensures DaysFromCivil(y, m + 1, 1) == DaysFromCivil(y, m, 1) + DaysInMonth(y, m)
  {
    if m == 2 {
      FebruaryLength(y);
    } else {
      var mp := if m > 2 then m - 3 else m + 9;
      var rest := DaysFromCivil(y, m, 1) - (153 * mp + 2) / 5;
      assert DaysFromCivil(y, m + 1, 1) == rest + (153 * (mp + 1) + 2) / 5;
      MonthOffsets(y, m, mp);
    }
  }

  /** December 1st to the next January 1st is 31 days. */
  lemma DecemberLength(y: int)
    ensures DaysFromCivil(y + 1, 1, 1) == DaysFromCivil(y, 12, 1) + DaysInMonth(y, 12)
  {
  }

  /** The month after a valid month starts one month length after it, December
      included. */
  lemma NextMonthStartsAfterThisOne(ym: YearMonth)
    requires ym.Valid()
    ensures var n := NextMonth(ym);
            DaysFromCivil(n.year, n.month, 1) == DaysFromCivil(ym.year, ym.month, 1) + DaysInMonth(ym.year, ym.month)
  {
    if ym.month == 12 {
      DecemberLength(ym.year);
    } else {
      MonthsAreConsecutive(ym.year, ym.month);
    }
  }

  /** February 1st to March 1st is 29 days in a leap year and 28 otherwise. */
  lemma FebruaryLength(y: int)
    ensures DaysFromCivil(y, 3, 1) == DaysFromCivil(y, 2, 1) + DaysInMonth(y, 2)
  {
    YearFromMarch(y - 1);
    assert DaysFromCivil(y, 2, 1) == DaysFromCivil(y - 1, 3, 1) + 337;
  }

  /** Outside February, the day-of-year offsets of consecutive months (counted
      from March) differ by the month's length. */
  lemma MonthOffsets(y: int, m: int, mp: int)
    requires 1 <= m <= 12 && m != 2 && mp == if m > 2 then m - 3 else m + 9
    ensures (153 * (mp + 1) + 2) / 5 - (153 * mp + 2) / 5 == DaysInMonth(y, m)
  {
  }

  /** From one March 1st to the next is 366 days when the February between them
      has 29 days, else 365. */
  lemma YearFromMarch(y: int)
    ensures DaysFromCivil(y + 1, 3, 1) - DaysFromCivil(y, 3, 1) == if IsLeapYear(y + 1) then 366 else 365
  {
    var era := y / 400;
    var yoe := y - era * 400;
    var d0 := DaysFromCivil(y, 3, 1);
    assert d0 == era * 146097 + yoe * 365 + yoe / 4 - yoe / 100 - 719468;
    DivBy400(y, era, yoe);
    if yoe < 399 {
      DivBy400(y + 1, era, yoe + 1);
      var d1 := DaysFromCivil(y + 1, 3, 1);
      assert d1 == era * 146097 + (yoe + 1) * 365 + (yoe + 1) / 4 - (yoe + 1) / 100 - 719468;
      QuotientStep(yoe);
      LeapWithinEra(y + 1, era, yoe + 1);
      assert d1 - d0 == 365 + ((yoe + 1) / 4 - yoe / 4) - ((yoe + 1) / 100 - yoe / 100);
    } else {
      DivBy400(y + 1, era + 1, 0);
      RemainderBy4(y + 1, 100 * (era + 1), 0);
      assert yoe == 399 && yoe / 4 == 99 && yoe / 100 == 3;
      assert DaysFromCivil(y + 1, 3, 1) == (era + 1) * 146097 - 719468;
    }
  }

  lemma DivBy400(x: int, q: int, r: int)
    requires x == 400 * q + r && 0 <= r < 400
    ensures x / 400 == q && x % 400 == r
  {
  }

  /** How the quotients by 4 and by 100 move when a year of the era is added. */
  lemma QuotientStep(x: int)
    requires 0 <= x < 399
    ensures (x + 1) / 4 - x / 4 == if (x + 1) % 4 == 0 then 1 else 0
    ensures (x + 1) / 100 - x / 100 == if (x + 1) % 100 == 0 then 1 else 0
    ensures (x + 1) % 100 == 0 ==> (x + 1) % 4 == 0
  {
  }

  /** Within a 400-year era, the leap rule reads the year of the era. */
  lemma LeapWithinEra(x: int, era: int, k: int)
    requires x == 400 * era + k && 0 < k < 400
    ensures IsLeapYear(x) <==> k % 4 == 0 && k % 100 != 0
  {
    DivBy400(x, era, k);
    RemainderBy4(x, 100 * era + k / 4, k % 4);
    RemainderBy100(x, 4 * era + k / 100, k % 100);
  }

  lemma RemainderBy4(x: int, q: int, r: int)
    requires x == 4 * q + r && 0 <= r < 4
    ensures x % 4 == r
  {
  }

  lemma RemainderBy100(x: int, q: int, r: int)
    requires x == 100 * q + r && 0 <= r < 100
    ensures x % 100 == r
  {
  }

  /** `getDate()` undoes the day serial: the day of the month of y-m-d is d. */
  lemma DayOfMonthOfCivil(y: int, m: int, d: int)
    requires 1 <= m <= 12 && 1 <= d <= DaysInMonth(y, m)
    ensures DayOfMonth(DaysFromCivil(y, m, d)) == d
  {
    var y' := if m <= 2 then y - 1 else y;
    var era := y' / 400;
    var yoe := y' - era * 400;
    var mp := if m > 2 then m - 3 else m + 9;
    var doy := (153 * mp + 2) / 5 + d - 1;
    var doe := yoe * 365 + yoe / 4 - yoe / 100 + doy;
    assert DaysFromCivil(y, m, d) + 719468 == era * 146097 + doe;
    DivBy400(y', era, yoe);
    if m == 2 {
      assert (153 * 12 + 2) / 5 - (153 * 11 + 2) / 5 == 30;
      if d == 29 {
        LeapAtEraEnd(y, era, yoe);
      }
    } else {
      MonthOffsets(y, m, mp);
    }
    MonthOfDay(mp, d, doy);
    YearOfEraBounds(yoe, doy);
    DivBy146097(DaysFromCivil(y, m, d) + 719468, era, doe);
    YearOfEra(yoe, doy);
    DayOfMonthSteps(DaysFromCivil(y, m, d), era, doe, yoe, doy, mp);
  }

  /** `civil_from_days` step by step, given the value each step yields. */
  lemma DayOfMonthSteps(n: int, era: int, doe: int, yoe: int, doy: int, mp: int)
    requires (n + 719468) / 146097 == era && n + 719468 - era * 146097 == doe
    requires (doe - doe / 1460 + doe / 36524 - doe / 146096) / 365 == yoe
    requires doe - (365 * yoe + yoe / 4 - yoe / 100) == doy
    requires (5 * doy + 2) / 153 == mp
    ensures DayOfMonth(n) == doy - (153 * mp + 2) / 5 + 1
  {
  }

  /** The last day of a March-based year of the era is its 366th only when the
      February it ends with is a leap one. */
  lemma LeapAtEraEnd(y: int, era: int, yoe: int)
    requires y - 1 == 400 * era + yoe && 0 <= yoe < 400 && IsLeapYear(y)
    ensures yoe % 4 == 3 && (yoe % 100 != 99 || yoe == 399)
  {
    var c, q, r := yoe / 100, yoe % 100 / 4, yoe % 4;
    EraYearDigits(yoe, c, q, r);
    if yoe < 399 {
      LeapWithinEra(y, era, yoe + 1);
      NextYearRemainders(yoe, c, q, r);
    }
  }

  /** Where the year after `yoe` falls in the leap cycle and the century. */
  lemma NextYearRemainders(yoe: int, c: int, q: int, r: int)
    requires yoe == 100 * c + 4 * q + r && 0 <= c < 4 && 0 <= q < 25 && 0 <= r < 4
    ensures (yoe + 1) % 4 == 0 <==> r == 3
    ensures (yoe + 1) % 100 == 0 <==> r == 3 && q == 24
  {
    if r < 3 {
      RemainderBy4(yoe + 1, 25 * c + q, r + 1);
      RemainderBy100(yoe + 1, c, 4 * q + r + 1);
    } else if q < 24 {
      RemainderBy4(yoe + 1, 25 * c + q + 1, 0);
      RemainderBy100(yoe + 1, c, 4 * q + 4);
    } else {
      RemainderBy4(yoe + 1, 25 * c + 25, 0);
      RemainderBy100(yoe + 1, c + 1, 0);
    }
  }

  /** The month index found by `(5 * doy + 2) / 153` is the one the day of the
      year was counted from, for any day within that month. */
  lemma MonthOfDay(mp: int, d: int, doy: int)
    requires 0 <= mp < 12 && 1 <= d <= (153 * (mp + 1) + 2) / 5 - (153 * mp + 2) / 5
    requires doy == (153 * mp + 2) / 5 + d - 1
    ensures (5 * doy + 2) / 153 == mp
  {
    var off, off' := (153 * mp + 2) / 5, (153 * (mp + 1) + 2) / 5;
    DivBy5(153 * mp + 2, off, (153 * mp + 2) % 5);
    DivBy5(153 * (mp + 1) + 2, off', (153 * (mp + 1) + 2) % 5);
    DivBy153(5 * doy + 2, mp, 5 * doy + 2 - 153 * mp);
  }

  /** The year of the era that `civil_from_days` reads off a day of the era is
      the one `days_from_civil` put it in. */
  lemma YearOfEra(yoe: int, doy: int)
    requires 0 <= yoe < 400 && 0 <= doy <= 365
    requires doy == 365 ==> yoe % 4 == 3 && (yoe % 100 != 99 || yoe == 399)
    ensures var doe := yoe * 365 + yoe / 4 - yoe / 100 + doy;
            0 <= doe < 146097 && (doe - doe / 1460 + doe / 36524 - doe / 146096) / 365 == yoe
  {
    var c, q, r := yoe / 100, yoe % 100 / 4, yoe % 4;
    EraYearDigits(yoe, c, q, r);
    assert yoe * 365 + yoe / 4 - yoe / 100 + doy == 36524 * c + 1461 * q + 365 * r + doy;
    YearOfCycle(c, q, r, doy);
  }

  /** `YearOfEra` for the year `100 * c + 4 * q + r` of the era. */
  lemma YearOfCycle(c: int, q: int, r: int, doy: int)
    requires 0 <= c < 4 && 0 <= q < 25 && 0 <= r < 4 && 0 <= doy <= 365
    requires doy == 365 ==> r == 3 && (q != 24 || c == 3)
    ensures var doe := 36524 * c + 1461 * q + 365 * r + doy;
            0 <= doe < 146097 && (doe - doe / 1460 + doe / 36524 - doe / 146096) / 365 == 100 * c + 4 * q + r
  {
    var doe := 36524 * c + 1461 * q + 365 * r + doy;
    var t := 24 * c + q + 365 * r + doy;
    var delta := if t >= 1460 then 1 else 0;
    DivBy1460(doe, 25 * c + q + delta, t - 1460 * delta);
    var centuries := doe / 36524 - doe / 146096;
    if doe == 146096 {
      assert centuries == 3;
    } else {
      DivBy36524(doe, c, 1461 * q + 365 * r + doy);
      DivBy146096(doe, 0, doe);
      assert centuries == c;
    }
    DivBy365(doe - (25 * c + q + delta) + centuries, 100 * c + 4 * q + r, doy - delta);
  }

  /** Every day of a 400-year era is numbered below 146097. */
  lemma YearOfEraBounds(yoe: int, doy: int)
    requires 0 <= yoe < 400 && 0 <= doy <= 365
    ensures 0 <= yoe * 365 + yoe / 4 - yoe / 100 + doy < 146097
  {
    EraYearDigits(yoe, yoe / 100, yoe % 100 / 4, yoe % 4);
  }

  /** A year of the era split into its century, its leap cycle and its place in it. */
  lemma EraYearDigits(yoe: int, c: int, q: int, r: int)
    requires 0 <= yoe < 400 && c == yoe / 100 && q == yoe % 100 / 4 && r == yoe % 4
    ensures yoe == 100 * c + 4 * q + r && 0 <= c < 4 && 0 <= q < 25 && 0 <= r < 4
    ensures yoe / 4 == 25 * c + q && yoe % 100 == 4 * q + r
  {
  }

  lemma DivBy5(x: int, q: int, r: int)
    requires x == 5 * q + r && 0 <= r < 5
    ensures x / 5 == q
  {
  }

  lemma DivBy153(x: int, q: int, r: int)
    requires x == 153 * q + r && 0 <= r < 153
    ensures x / 153 == q
  {
  }

  lemma DivBy365(x: int, q: int, r: int)
    requires x == 365 * q + r && 0 <= r < 365
    ensures x / 365 == q
  {
  }

  lemma DivBy1460(x: int, q: int, r: int)
    requires x == 1460 * q + r && 0 <= r < 1460
    ensures x / 1460 == q
  {
  }

  lemma DivBy146096(x: int, q: int, r: int)
    requires x == 146096 * q + r && 0 <= r < 146096
    ensures x / 146096 == q
  {
  }

  lemma DivBy36524(x: int, q: int, r: int)
    requires x == 36524 * q + r && 0 <= r < 36524
    ensures x / 36524 == q
  {
  }

  lemma DivBy146097(x: int, q: int, r: int)
    requires x == 146097 * q + r && 0 <= r < 146097
    ensures x / 146097 == q && x % 146097 == r
  {
  }

  /** A month as the booking wizard's calendar shows it. */
  datatype YearMonth = YearMonth(year: int, month: int)
  {
    predicate Valid() { 1 <= month <= 12 }
  }

  /** `subMonths(_, 1)` on the month shown. */
  function PreviousMonth(ym: YearMonth): (r: YearMonth)
    requires ym.Valid()
    ensures r.Valid() && NextMonth(r) == ym
  {
    if ym.month == 1 then YearMonth(ym.year - 1, 12) else YearMonth(ym.year, ym.month - 1)
  }

  /** `addMonths(_, 1)` on the month shown. */
  function NextMonth(ym: YearMonth): (r: YearMonth)
    requires ym.Valid()
    ensures r.Valid()
    ensures ym.month == 12 ==> r == YearMonth(ym.year + 1, 1)
    ensures ym.month < 12 ==> r == YearMonth(ym.year, ym.month + 1)
  {
    if ym.month == 12 then YearMonth(ym.year + 1, 1) else YearMonth(ym.year, ym.month + 1)
  }
}
