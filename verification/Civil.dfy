/** Calendar dates from a day count: the arithmetic behind the fallback short
    date, against the Gregorian rules stated month by month. */
module Civil {
  datatype Date = Date(year: int, month: int, day: int)

  // ----- The arithmetic of the program

  const DAYS_PER_ERA := 146_097
  const SECONDS_PER_DAY := 86_400

  /** Year of a 400-year era (March to February) in which day `doe` of the era falls. */
  function YearOfEra(doe: int): int { (doe - doe / 1460 + doe / 36524 - doe / 146_096) / 365 }

  function DaysBefore(yoe: int): int { 365 * yoe + yoe / 4 - yoe / 100 }

  function FromEra(era: int, yoe: int, doy: int): Date {
    var mp := (5 * doy + 2) / 153;
    var d := doy - (153 * mp + 2) / 5 + 1;
    var m := if mp < 10 then mp + 3 else mp - 9;
    var y := yoe + era * 400;
    Date(if m <= 2 then y + 1 else y, m, d)
  }

  function FromDays(days: nat): Date {
    var z := days + 719_468;
    var era := z / DAYS_PER_ERA;
    var doe := z - era * DAYS_PER_ERA;
    var yoe := YearOfEra(doe);
    FromEra(era, yoe, doe - DaysBefore(yoe))
  }

  function FallbackDate(unixSecs: nat): Date { FromDays(unixSecs / SECONDS_PER_DAY) }

  // ----- The Gregorian calendar

  predicate IsLeap(y: int) { y % 4 == 0 && (y % 100 != 0 || y % 400 == 0) }

  function DaysInMonth(y: int, m: int): int {
    if m == 2 then (if IsLeap(y) then 29 else 28)
    else if m == 4 || m == 6 || m == 9 || m == 11 then 30
    else 31
  }

  predicate IsDate(x: Date) { 1 <= x.month <= 12 && 1 <= x.day <= DaysInMonth(x.year, x.month) }

  function NextDay(x: Date): Date {
    if x.day < DaysInMonth(x.year, x.month) then x.(day := x.day + 1)
    else if x.month < 12 then Date(x.year, x.month + 1, 1)
    else Date(x.year + 1, 1, 1)
  }

  const EPOCH := Date(1970, 1, 1)

  /** The date `n` days after the epoch, one calendar day at a time. */
  function Calendar(n: nat): Date { if n == 0 then EPOCH else NextDay(Calendar(n - 1)) }

  function DaysBeforeMonth(y: int, m: int): int
    requires 1 <= m <= 12
  {
    if m == 1 then 0 else DaysBeforeMonth(y, m - 1) + DaysInMonth(y, m - 1)
  }

  function DaysBeforeYear(y: int): int { 365 * (y - 1) + (y - 1) / 4 - (y - 1) / 100 + (y - 1) / 400 }

  /** Days from the epoch to a date, counted in whole years, months and days. */
  function ToDays(x: Date): int
    requires 1 <= x.month <= 12
  {
    DaysBeforeYear(x.year) + DaysBeforeMonth(x.year, x.month) + x.day - 1 - DaysBeforeYear(1970)
  }

  // ----- Proof

  /** Day `r` of a century splits into `q` four-year cycles and `u` days; the
      correction term of the program is `q`, or `q + 1` near a cycle's end. */
  lemma YearOfCentury(c: int, r: int)
    requires 0 <= c <= 3 && 0 <= r < 36_524
    ensures var u := r % 1461;
            (r - (24 * c + r) / 1460) / 365 == 4 * (r / 1461) + (if u / 365 < 3 then u / 365 else 3)
  {
    var q, u := r / 1461, r % 1461;
    assert r == 1461 * q + u && 0 <= q <= 24;
    var t := (24 * c + r) / 1460;
    assert 24 * c + r == 1460 * q + (q + u + 24 * c);
    if q + u + 24 * c < 1460 {
      assert t == q;
      assert r - t == 365 * (4 * q) + u;
    } else {
      assert t == q + 1;
      assert r - t == 365 * (4 * q) + (u - 1);
    }
  }

  lemma YearInCentury(c: int, r: int, k: int)
    requires 0 <= c <= 3 && 0 <= r < 36_524
    requires k == 4 * (r / 1461) + (if r % 1461 / 365 < 3 then r % 1461 / 365 else 3)
    ensures 0 <= k <= 99 && 365 * k + k / 4 <= r
    ensures k < 99 ==> r < 365 * (k + 1) + (k + 1) / 4
    ensures DaysBefore(100 * c + k) == 36_524 * c + 365 * k + k / 4
    ensures k < 99 ==> DaysBefore(100 * c + k + 1) == 36_524 * c + 365 * (k + 1) + (k + 1) / 4
    ensures k == 99 && c < 3 ==> DaysBefore(100 * c + k + 1) == 36_524 * (c + 1)
  {
    var q, u := r / 1461, r % 1461;
    assert r == 1461 * q + u && 0 <= q <= 24;
    var v := if u / 365 < 3 then u / 365 else 3;
    assert k / 4 == q && 365 * v <= u;
    DaysBeforeInCentury(c, k);
    if k < 99 {
      DaysBeforeInCentury(c, k + 1);
    } else if c < 3 {
      DaysBeforeInCentury(c + 1, 0);
    }
  }

  lemma DaysBeforeInCentury(c: int, k: int)
    requires 0 <= c <= 3 && 0 <= k <= 99
    ensures DaysBefore(100 * c + k) == 36_524 * c + 365 * k + k / 4
  {
    assert (100 * c + k) / 100 == c && (100 * c + k) / 4 == 25 * c + k / 4;
  }

  /** The program's year is the year of the era that contains the day. */
  lemma YearOfEraBounds(doe: int)
    requires 0 <= doe < DAYS_PER_ERA
    ensures 0 <= YearOfEra(doe) <= 399
    ensures DaysBefore(YearOfEra(doe)) <= doe
    ensures YearOfEra(doe) < 399 ==> doe < DaysBefore(YearOfEra(doe) + 1)
  {
    if doe < 146_096 {
      var c, r := doe / 36524, doe % 36524;
      assert doe == 36524 * c + r && 0 <= c <= 3;
      YearOfCentury(c, r);
      var t := (24 * c + r) / 1460;
      assert doe == 1460 * (25 * c) + (24 * c + r);
      assert doe / 1460 == 25 * c + t;
      assert doe - doe / 1460 + doe / 36524 - doe / 146_096 == 365 * (100 * c) + (r - t);
      var k := (r - t) / 365;
      assert YearOfEra(doe) == 100 * c + k;
      YearInCentury(c, r, k);
    }
  }

  lemma LongYears(yoe: int)
    requires 0 <= yoe <= 399
    ensures yoe < 399 ==> DaysBefore(yoe + 1) - DaysBefore(yoe) == if IsLeap(yoe + 1) then 366 else 365
    ensures yoe == 399 ==> IsLeap(yoe + 1) && DAYS_PER_ERA - DaysBefore(yoe) == 366
  {
    NextQuarter(yoe);
    NextHundred(yoe);
  }

  lemma NextQuarter(y: int)
    ensures (y + 1) / 4 == y / 4 + if (y + 1) % 4 == 0 then 1 else 0
  {
  }

  lemma NextHundred(y: int)
    ensures (y + 1) / 100 == y / 100 + if (y + 1) % 100 == 0 then 1 else 0
  {
  }

  lemma Mod4(y: int, era: int)
    ensures (y + era * 400) % 4 == y % 4
  {
    var w := y / 4 + era * 100;
    assert y + era * 400 == 4 * w + y % 4;
  }

  lemma Mod100(y: int, era: int)
    ensures (y + era * 400) % 100 == y % 100
  {
    var w := y / 100 + era * 4;
    assert y + era * 400 == 100 * w + y % 100;
  }

  lemma Mod400(y: int, era: int)
    ensures (y + era * 400) % 400 == y % 400
  {
    var w := y / 400 + era;
    assert y + era * 400 == 400 * w + y % 400;
  }

  lemma LeapEras(era: int, y: int)
    ensures IsLeap(y + era * 400) <==> IsLeap(y)
  {
    Mod4(y, era);
    Mod100(y, era);
    Mod400(y, era);
  }

  lemma MonthOfDay(era: int, yoe: int, doy: int)
    requires 0 <= yoe <= 399 && 0 <= doy <= 365
    requires doy == 365 ==> IsLeap(yoe + 1)
    ensures IsDate(FromEra(era, yoe, doy))
    ensures doy < 364 || (doy == 364 && IsLeap(yoe + 1)) ==>
              FromEra(era, yoe, doy + 1) == NextDay(FromEra(era, yoe, doy))
    ensures doy == 365 || (doy == 364 && !IsLeap(yoe + 1)) ==>
              NextDay(FromEra(era, yoe, doy)) == Date(yoe + 1 + era * 400, 3, 1)
  {
    LeapEras(era, yoe + 1);
  }

  lemma {:induction false} DaysBeforeIncreases(a: int, b: int)
    requires 0 <= a <= b
    ensures DaysBefore(a) <= DaysBefore(b)
    decreases b - a
  {
    if a < b {
      DaysBeforeIncreases(a, b - 1);
    }
  }

  lemma YearIsUnique(doe: int, yoe: int)
    requires 0 <= doe < DAYS_PER_ERA && 0 <= yoe <= 399
    requires DaysBefore(yoe) <= doe && (yoe < 399 ==> doe < DaysBefore(yoe + 1))
    ensures YearOfEra(doe) == yoe
  {
    YearOfEraBounds(doe);
    var k := YearOfEra(doe);
    if k < yoe {
      DaysBeforeIncreases(k + 1, yoe);
    } else if yoe < k {
      DaysBeforeIncreases(yoe + 1, k);
    }
  }

  /** The program's date, from any era and year that contain the day. */
  lemma FromDaysAt(days: nat, era: int, doe: int, yoe: int)
    requires days + 719_468 == era * DAYS_PER_ERA + doe
    requires 0 <= doe < DAYS_PER_ERA && 0 <= yoe <= 399
    requires DaysBefore(yoe) <= doe && (yoe < 399 ==> doe < DaysBefore(yoe + 1))
    ensures FromDays(days) == FromEra(era, yoe, doe - DaysBefore(yoe))
  {
    EraOf(days + 719_468, era, doe);
    YearIsUnique(doe, yoe);
  }

  lemma EraOf(z: int, era: int, doe: int)
    requires z == era * DAYS_PER_ERA + doe && 0 <= doe < DAYS_PER_ERA
    ensures z / DAYS_PER_ERA == era
  {
  }

  lemma SuccessorAt(days: nat, era: int, doe: int, yoe: int)
    requires days + 719_468 == era * DAYS_PER_ERA + doe
    requires 0 <= doe < DAYS_PER_ERA && 0 <= yoe <= 399
    requires DaysBefore(yoe) <= doe && (yoe < 399 ==> doe < DaysBefore(yoe + 1))
    ensures IsDate(FromDays(days))
    ensures FromDays(days + 1) == NextDay(FromDays(days))
  {
    var doy := doe - DaysBefore(yoe);
    LongYears(yoe);
    FromDaysAt(days, era, doe, yoe);
    MonthOfDay(era, yoe, doy);
    if doe + 1 == DAYS_PER_ERA {
      YearIsUnique(doe, 399);
      YearIsUnique(doe, yoe);
      FromDaysAt(days + 1, era + 1, 0, 0);
      NewYearsDay(era + 1, 0);
    } else if yoe < 399 && doe + 1 == DaysBefore(yoe + 1) {
      FromDaysAt(days + 1, era, doe + 1, yoe + 1);
      NewYearsDay(era, yoe + 1);
    } else {
      FromDaysAt(days + 1, era, doe + 1, yoe);
    }
  }

  lemma NewYearsDay(era: int, yoe: int)
    ensures FromEra(era, yoe, 0) == Date(yoe + era * 400, 3, 1)
  {
  }

  /** The day after the program's date is the calendar's next day. */
  lemma FromDaysSuccessor(days: nat)
    ensures IsDate(FromDays(days))
    ensures FromDays(days + 1) == NextDay(FromDays(days))
  {
    var z := days + 719_468;
    var era, doe := z / DAYS_PER_ERA, z % DAYS_PER_ERA;
    YearOfEraBounds(doe);
    SuccessorAt(days, era, doe, YearOfEra(doe));
  }

  // ----- Main results

  lemma FromDaysAtEpoch()
    ensures FromDays(0) == EPOCH
  {
    FromDaysAt(0, 4, 135_080, 369);
  }

  /** The program's date for a day count is the Gregorian date reached from
      1 January 1970 by that many single-day steps. */
  lemma FromDaysIsTheCalendar(days: nat)
    ensures FromDays(days) == Calendar(days)
  {
    FromDaysAtEpoch();
    forall k: nat ensures FromDays(k + 1) == NextDay(FromDays(k)) {
      FromDaysSuccessor(k);
    }
    StepsMakeTheCalendar(FromDays, days);
  }

  lemma {:induction false} StepsMakeTheCalendar(date: nat -> Date, days: nat)
    requires date(0) == EPOCH && forall k: nat :: date(k + 1) == NextDay(date(k))
    ensures date(days) == Calendar(days)
  {
    if days > 0 {
      StepsMakeTheCalendar(date, days - 1);
      assert date(days - 1 + 1) == NextDay(date(days - 1));
    }
  }

  lemma MonthsMakeAYear(y: int)
    ensures DaysBeforeMonth(y, 12) + DaysInMonth(y, 12) == if IsLeap(y) then 366 else 365
  {
    assert DaysBeforeMonth(y, 2) == 31;
    assert DaysBeforeMonth(y, 3) == 31 + DaysInMonth(y, 2);
    assert DaysBeforeMonth(y, 4) == DaysBeforeMonth(y, 3) + 31;
    assert DaysBeforeMonth(y, 5) == DaysBeforeMonth(y, 4) + 30;
    assert DaysBeforeMonth(y, 6) == DaysBeforeMonth(y, 5) + 31;
    assert DaysBeforeMonth(y, 7) == DaysBeforeMonth(y, 6) + 30;
    assert DaysBeforeMonth(y, 8) == DaysBeforeMonth(y, 7) + 31;
    assert DaysBeforeMonth(y, 9) == DaysBeforeMonth(y, 8) + 31;
    assert DaysBeforeMonth(y, 10) == DaysBeforeMonth(y, 9) + 30;
    assert DaysBeforeMonth(y, 11) == DaysBeforeMonth(y, 10) + 31;
  }

  lemma YearLength(y: int)
    ensures DaysBeforeYear(y + 1) - DaysBeforeYear(y) == if IsLeap(y) then 366 else 365
  {
    assert y / 4 - (y - 1) / 4 == if y % 4 == 0 then 1 else 0;
    assert y / 100 - (y - 1) / 100 == if y % 100 == 0 then 1 else 0;
    assert y / 400 - (y - 1) / 400 == if y % 400 == 0 then 1 else 0;
    Nested(y);
  }

  lemma Nested(y: int)
    ensures y % 400 == 0 ==> y % 100 == 0
    ensures y % 100 == 0 ==> y % 4 == 0
  {
  }

  lemma ToDaysSuccessor(x: Date)
    requires IsDate(x)
    ensures IsDate(NextDay(x)) && ToDays(NextDay(x)) == ToDays(x) + 1
  {
    MonthsMakeAYear(x.year);
    YearLength(x.year);
    assert DaysBeforeMonth(x.year + 1, 1) == 0;
  }

  lemma {:induction false} ToDaysOfCalendar(days: nat)
    ensures IsDate(Calendar(days)) && ToDays(Calendar(days)) == days
  {
    if days > 0 {
      ToDaysOfCalendar(days - 1);
      ToDaysSuccessor(Calendar(days - 1));
    }
  }

  /** For every unix time the fallback date is a real date, and counting its
      days back in whole years, months and days gives the day it came from. */
  lemma FallbackDateRoundTrip(unixSecs: nat)
    ensures IsDate(FallbackDate(unixSecs))
    ensures ToDays(FallbackDate(unixSecs)) == unixSecs / SECONDS_PER_DAY
    ensures FallbackDate(unixSecs + SECONDS_PER_DAY) == NextDay(FallbackDate(unixSecs))
  {
    var days := unixSecs / SECONDS_PER_DAY;
    FromDaysIsTheCalendar(days);
    ToDaysOfCalendar(days);
    FromDaysSuccessor(days);
    OneDayOn(unixSecs);
  }

  lemma OneDayOn(unixSecs: nat)
    ensures (unixSecs + SECONDS_PER_DAY) / SECONDS_PER_DAY == unixSecs / SECONDS_PER_DAY + 1
  {
  }
}
